/** The command-line client: where the index and the posts live (addresses
    derived from fixed seeds), `post`, which appends one post, and `view`,
    which reads them all back in order. */
module Client {
  import opened Wrappers
  import opened Borsh
  import opened Util
  import opened Keys
  import opened Program
  import opened Runtime

  const INDEX_ACCOUNT_SEED: string := "postly_index"
  const POST_ACCOUNT_SEED: string := "postly_account"

  // ------------------------------------------------------------- seed naming

  function Digit(d: nat): (c: char)
    requires d < 10
    ensures '0' <= c <= '9'
  {
    (('0' as int) + d) as char
  }

  /** The `Display` rendering of an id: its decimal digits, without leading zeros. */
  function Decimal(n: nat): (s: string)
    ensures 1 <= |s|
    ensures forall i :: 0 <= i < |s| ==> '0' <= s[i] <= '9'
    ensures |s| > 1 ==> s[0] != '0'
    decreases n
  {
    if n < 10 then [Digit(n)] else Decimal(n / 10) + [Digit(n % 10)]
  }

  /** The number a string of decimal digits denotes. */
  function DecimalValue(s: string): nat
    requires forall i :: 0 <= i < |s| ==> '0' <= s[i] <= '9'
  {
    if s == [] then 0 else 10 * DecimalValue(s[..|s| - 1]) + ((s[|s| - 1] as int) - ('0' as int))
  }

  /** Reading the rendering of an id gives the id back. */
  lemma {:induction false} DecimalRoundTrip(n: nat)
    ensures DecimalValue(Decimal(n)) == n
  {
    if n >= 10 {
      DecimalRoundTrip(n / 10);
      var s := Decimal(n);
      assert s[..|s| - 1] == Decimal(n / 10);
    }
  }

  lemma DecimalInjective(m: nat, n: nat)
    ensures Decimal(m) == Decimal(n) ==> m == n
  {
    DecimalRoundTrip(m);
    DecimalRoundTrip(n);
  }

  function Pow10(k: nat): nat
  {
    if k == 0 then 1 else 10 * Pow10(k - 1)
  }

  /** A number below 10^k has at most k digits. */
  lemma {:induction false} DecimalLength(n: nat, k: nat)
    requires 1 <= k && n < Pow10(k)
    ensures |Decimal(n)| <= k
  {
    if n >= 10 {
      assert Pow10(1) == 10;
      DecimalLength(n / 10, k - 1);
    }
  }

  /** `format!("{}_{}", POST_ACCOUNT_SEED, id)`: the 15 bytes "postly_account_",
      then the decimal rendering of `id`, so at most 25 bytes for a `u32` id. */
  function PostSeed(id: nat): (s: string)
    ensures |s| > 15 && s[..15] == "postly_account_" && s[15..] == Decimal(id)
    ensures id < 0x1_0000_0000 ==> |s| <= 25
  {
    var s := POST_ACCOUNT_SEED + "_" + Decimal(id);
    assert s[15..] == Decimal(id);
    assert Pow10(10) == 10_000_000_000;
    if id < 0x1_0000_0000 then DecimalLength(id, 10); s else s
  }

  /** Every id a `u32` counter reaches names a seed of at most 25 bytes, which
      the ledger accepts. */
  lemma PostSeedFits(id: U32)
    ensures |PostSeed(id)| <= 25 <= MAX_SEED_LEN
  {
  }

  /** Distinct ids name distinct seeds. */
  lemma PostSeedInjective(m: nat, n: nat)
    ensures PostSeed(m) == PostSeed(n) ==> m == n
  {
    if PostSeed(m) == PostSeed(n) {
      assert Decimal(m) == PostSeed(m)[15..];
      assert Decimal(n) == PostSeed(n)[15..];
      DecimalInjective(m, n);
    }
  }

  /** No post seed is the index seed. */
  lemma PostSeedNotIndexSeed(id: nat)
    ensures PostSeed(id) != INDEX_ACCOUNT_SEED
  {
    assert |PostSeed(id)| > |INDEX_ACCOUNT_SEED|;
  }

  // ------------------------------------------------------------ the addresses

  /** The index account's address; deriving it cannot fail. */
  function IndexAddress(hash: Hasher, programId: Pubkey, payer: Pubkey): (a: Pubkey)
    ensures CreateWithSeed(hash, payer, INDEX_ACCOUNT_SEED, programId) == Ok(a)
  {
    CreateWithSeed(hash, payer, INDEX_ACCOUNT_SEED, programId).value
  }

  /** The address of post `id`; deriving it cannot fail, so the client's
      `unwrap` on it never panics. */
  function PostAddress(hash: Hasher, programId: Pubkey, payer: Pubkey, id: U32): (a: Pubkey)
    ensures CreateWithSeed(hash, payer, PostSeed(id), programId) == Ok(a)
  {
    PostSeedFits(id);
    CreateWithSeed(hash, payer, PostSeed(id), programId).value
  }

  // ------------------------------------------------------------------- view

  /** One line `view` prints: "My {id} Post => {post}". */
  datatype Line = Line(id: U32, post: Text)

  /** Reading post `id`: a missing or undecodable account is a PostError. */
  function ReadPost(hash: Hasher, accts: Accounts, programId: Pubkey, payer: Pubkey, id: U32): (r: Result<Text, PostlyError>)
    ensures r.Err? ==> r.error == PostError
  {
    var addr := PostAddress(hash, programId, payer, id);
    if addr !in accts then Err(PostError)
    else
      match AccountFromSlice(accts[addr].data)
      case Err(_) => Err(PostError)
      case Ok(p) => Ok(p.post)
  }

  /** Post `id` reads exactly when its account exists and decodes, and then it
      is the decoded post. */
  lemma ReadPostOk(hash: Hasher, accts: Accounts, programId: Pubkey, payer: Pubkey, id: U32)
    ensures var r := ReadPost(hash, accts, programId, payer, id);
      var addr := PostAddress(hash, programId, payer, id);
      (r.Ok? <==> addr in accts && AccountFromSlice(accts[addr].data).Ok?) &&
      (r.Ok? ==> r.value == AccountFromSlice(accts[addr].data).value.post)
  {
  }

  /** The loop of `view` over ids 0..n-1: one line per id, stopping at the
      first post that does not read. */
  function ViewPosts(hash: Hasher, accts: Accounts, programId: Pubkey, payer: Pubkey, n: nat): (r: Result<seq<Line>, PostlyError>)
    requires n <= 0x1_0000_0000
    ensures r.Ok? ==> |r.value| == n
    decreases n
  {
    if n == 0 then Ok([])
    else
      match ViewPosts(hash, accts, programId, payer, n - 1)
      case Err(e) => Err(e)
      case Ok(lines) =>
        match ReadPost(hash, accts, programId, payer, n - 1)
        case Err(e) => Err(e)
        case Ok(p) => Ok(lines + [Line(n - 1, p)])
  }

  /** A successful loop has read every post 0..n-1, and line i is post i. */
  lemma {:induction false} ViewPostsOk(hash: Hasher, accts: Accounts, programId: Pubkey, payer: Pubkey, n: nat)
    requires n <= 0x1_0000_0000
    requires ViewPosts(hash, accts, programId, payer, n).Ok?
    ensures forall i: U32 :: 0 <= i < n ==> (ReadPost(hash, accts, programId, payer, i).Ok? &&
      ViewPosts(hash, accts, programId, payer, n).value[i] == Line(i, ReadPost(hash, accts, programId, payer, i).value))
    decreases n
  {
    if n > 0 {
      var m := n - 1;
      var prev := ViewPosts(hash, accts, programId, payer, m);
      var last: U32 := m;
      var read := ReadPost(hash, accts, programId, payer, last);
      assert prev.Ok? && read.Ok?;
      ViewPostsOk(hash, accts, programId, payer, m);
      var lines := prev.value + [Line(last, read.value)];
      assert ViewPosts(hash, accts, programId, payer, n) == Ok(lines);
      forall i: U32 | 0 <= i < n
        ensures ReadPost(hash, accts, programId, payer, i).Ok? && lines[i] == Line(i, ReadPost(hash, accts, programId, payer, i).value)
      {
        if i < m {
          assert lines[i] == prev.value[i];
        } else {
          assert i == last && lines[i] == Line(last, read.value);
        }
      }
    }
  }

  /** When every post 0..n-1 reads, the loop succeeds. */
  lemma {:induction false} ViewPostsAllRead(hash: Hasher, accts: Accounts, programId: Pubkey, payer: Pubkey, n: nat)
    requires n <= 0x1_0000_0000
    requires forall i: U32 :: 0 <= i < n ==> ReadPost(hash, accts, programId, payer, i).Ok?
    ensures ViewPosts(hash, accts, programId, payer, n).Ok?
    decreases n
  {
    if n > 0 {
      var last: U32 := n - 1;
      assert ReadPost(hash, accts, programId, payer, last).Ok?;
      ViewPostsAllRead(hash, accts, programId, payer, n - 1);
    }
  }

  /** A failing loop fails with the error of the first post that does not read. */
  lemma {:induction false} ViewPostsFirstError(hash: Hasher, accts: Accounts, programId: Pubkey, payer: Pubkey, n: nat)
    requires n <= 0x1_0000_0000
    requires ViewPosts(hash, accts, programId, payer, n).Err?
    ensures exists i: U32 :: (0 <= i < n && ReadPost(hash, accts, programId, payer, i) == Err(ViewPosts(hash, accts, programId, payer, n).error) &&
      forall j: U32 :: 0 <= j < i ==> ReadPost(hash, accts, programId, payer, j).Ok?)
    decreases n
  {
    var prev := ViewPosts(hash, accts, programId, payer, n - 1);
    if prev.Err? {
      ViewPostsFirstError(hash, accts, programId, payer, n - 1);
    } else {
      ViewPostsOk(hash, accts, programId, payer, n - 1);
      var last: U32 := n - 1;
      assert ReadPost(hash, accts, programId, payer, last).Err?;
      assert ReadPost(hash, accts, programId, payer, last) == Err(ViewPosts(hash, accts, programId, payer, n).error);
    }
  }

  /** Once the loop has failed, later ids do not change the outcome. */
  lemma {:induction false} ViewPostsStops(hash: Hasher, accts: Accounts, programId: Pubkey, payer: Pubkey, m: nat, n: nat)
    requires m <= n <= 0x1_0000_0000
    requires ViewPosts(hash, accts, programId, payer, m).Err?
    ensures ViewPosts(hash, accts, programId, payer, n) == ViewPosts(hash, accts, programId, payer, m)
    decreases n
  {
    if m < n {
      ViewPostsStops(hash, accts, programId, payer, m, n - 1);
    }
  }

  /** `view`: a missing or undecodable index is an AccountError; otherwise the
      posts 0..post_n-1 are read in order. */
  function ViewSpec(hash: Hasher, accts: Accounts, programId: Pubkey, payer: Pubkey): (r: Result<seq<Line>, PostlyError>)
    ensures IndexAddress(hash, programId, payer) !in accts ==> r == Err(AccountError)
    ensures IndexAddress(hash, programId, payer) in accts && IndexFromSlice(accts[IndexAddress(hash, programId, payer)].data).Err?
      ==> r == Err(AccountError)
    ensures r.Ok? ==> (IndexAddress(hash, programId, payer) in accts &&
      |r.value| == IndexFromSlice(accts[IndexAddress(hash, programId, payer)].data).value.postN)
  {
    var indexAddr := IndexAddress(hash, programId, payer);
    if indexAddr !in accts then Err(AccountError)
    else
      match IndexFromSlice(accts[indexAddr].data)
      case Err(_) => Err(AccountError)
      case Ok(index) => ViewPosts(hash, accts, programId, payer, index.postN)
  }

  /** The lines the loop of `view` over ids 0..n-1 has printed: every post up
      to the first one that does not read. */
  function PrintedPosts(hash: Hasher, accts: Accounts, programId: Pubkey, payer: Pubkey, n: nat): (p: seq<Line>)
    requires n <= 0x1_0000_0000
    ensures |p| <= n
    decreases n
  {
    if n == 0 then []
    else
      var p := PrintedPosts(hash, accts, programId, payer, n - 1);
      if |p| < n - 1 then p
      else
        match ReadPost(hash, accts, programId, payer, n - 1)
        case Err(_) => p
        case Ok(post) => p + [Line(n - 1, post)]
  }

  /** What has been printed is the loop's result when it succeeds; when it
      fails, it is every post before the first one that does not read, and that
      post's error is the loop's error. Line j is post j in both cases. */
  lemma {:induction false} PrintedPostsView(hash: Hasher, accts: Accounts, programId: Pubkey, payer: Pubkey, n: nat)
    requires n <= 0x1_0000_0000
    ensures var p := PrintedPosts(hash, accts, programId, payer, n);
      var v := ViewPosts(hash, accts, programId, payer, n);
      (v.Ok? ==> p == v.value) &&
      (v.Err? ==> |p| < n && ReadPost(hash, accts, programId, payer, |p|) == Err(v.error))
    ensures var p := PrintedPosts(hash, accts, programId, payer, n);
      forall j: U32 :: 0 <= j < |p| ==> p[j].id == j && ReadPost(hash, accts, programId, payer, j) == Ok(p[j].post)
    decreases n
  {
    if n > 0 {
      PrintedPostsView(hash, accts, programId, payer, n - 1);
      var p := PrintedPosts(hash, accts, programId, payer, n - 1);
      var v := ViewPosts(hash, accts, programId, payer, n - 1);
      var last: U32 := n - 1;
      var read := ReadPost(hash, accts, programId, payer, last);
      if v.Err? {
        assert PrintedPosts(hash, accts, programId, payer, n) == p && ViewPosts(hash, accts, programId, payer, n) == v;
      } else if read.Err? {
        assert |p| == last;
        assert PrintedPosts(hash, accts, programId, payer, n) == p;
        assert ViewPosts(hash, accts, programId, payer, n) == Err(read.error);
      } else {
        var q := p + [Line(last, read.value)];
        assert PrintedPosts(hash, accts, programId, payer, n) == q && ViewPosts(hash, accts, programId, payer, n) == Ok(q);
        forall j: U32 | 0 <= j < |q|
          ensures q[j].id == j && ReadPost(hash, accts, programId, payer, j) == Ok(q[j].post)
        {
          if j < last {
            assert q[j] == p[j];
          }
        }
      }
    }
  }

  /** Once a post has failed to read, later ids print nothing more. */
  lemma {:induction false} PrintedPostsStops(hash: Hasher, accts: Accounts, programId: Pubkey, payer: Pubkey, m: nat, n: nat)
    requires m <= n <= 0x1_0000_0000
    requires |PrintedPosts(hash, accts, programId, payer, m)| < m
    ensures PrintedPosts(hash, accts, programId, payer, n) == PrintedPosts(hash, accts, programId, payer, m)
    decreases n
  {
    if m < n {
      PrintedPostsStops(hash, accts, programId, payer, m, n - 1);
    }
  }

  /** The lines `view` prints before it returns: none when the index is missing
      or undecodable, all of them when it succeeds, and otherwise the posts
      before the first one that does not read. */
  function ViewPrinted(hash: Hasher, accts: Accounts, programId: Pubkey, payer: Pubkey): (p: seq<Line>)
    ensures ViewSpec(hash, accts, programId, payer).Ok? ==> p == ViewSpec(hash, accts, programId, payer).value
    ensures IndexAddress(hash, programId, payer) !in accts ==> p == []
    ensures (IndexAddress(hash, programId, payer) in accts &&
             IndexFromSlice(accts[IndexAddress(hash, programId, payer)].data).Err?) ==> p == []
    ensures ViewSpec(hash, accts, programId, payer) == Err(PostError) ==>
      |p| < 0x1_0000_0000 && ReadPost(hash, accts, programId, payer, |p|) == Err(PostError)
    ensures forall j: U32 :: 0 <= j < |p| ==> p[j].id == j && ReadPost(hash, accts, programId, payer, j) == Ok(p[j].post)
  {
    var indexAddr := IndexAddress(hash, programId, payer);
    if indexAddr !in accts then []
    else
      match IndexFromSlice(accts[indexAddr].data)
      case Err(_) => []
      case Ok(index) =>
        PrintedPostsView(hash, accts, programId, payer, index.postN);
        PrintedPosts(hash, accts, programId, payer, index.postN)
  }

  /** `view`: `printed` is what it prints, in order, and `r` what it returns.
      It reads the ledger and changes nothing. */
  method View(programId: Pubkey, payer: Pubkey, rpc: Ledger) returns (r: Result<seq<Line>, PostlyError>, printed: seq<Line>)
    ensures r == ViewSpec(rpc.hash, rpc.accounts, programId, payer)
    ensures printed == ViewPrinted(rpc.hash, rpc.accounts, programId, payer)
  {
    printed := [];
    var derived := CreateWithSeed(rpc.hash, payer, INDEX_ACCOUNT_SEED, programId);
    // A 12-byte seed is within the ledger's limit.
    assert derived.Ok?;
    var indexAccount := rpc.GetAccount(derived.value);
    if indexAccount.None? {
      return Err(AccountError), [];
    }
    var decoded := IndexFromSlice(indexAccount.value.data);
    if decoded.Err? {
      return Err(AccountError), [];
    }
    r, printed := PrintPosts(programId, payer, rpc, decoded.value.postN);
  }

  /** The loop of `view` over ids 0..n-1: `printed` is every line it prints,
      `r` what it returns. */
  method PrintPosts(programId: Pubkey, payer: Pubkey, rpc: Ledger, n: U32) returns (r: Result<seq<Line>, PostlyError>, printed: seq<Line>)
    ensures r == ViewPosts(rpc.hash, rpc.accounts, programId, payer, n)
    ensures printed == PrintedPosts(rpc.hash, rpc.accounts, programId, payer, n)
  {
    var lines: seq<Line> := [];
    var id: U32 := 0;
    while id < n
      invariant 0 <= id <= n
      invariant ViewPosts(rpc.hash, rpc.accounts, programId, payer, id) == Ok(lines)
      invariant PrintedPosts(rpc.hash, rpc.accounts, programId, payer, id) == lines
    {
      var post := FetchPost(programId, payer, rpc, id);
      if post.Err? {
        ViewPostsStops(rpc.hash, rpc.accounts, programId, payer, id + 1, n);
        PrintedPostsStops(rpc.hash, rpc.accounts, programId, payer, id + 1, n);
        return Err(post.error), lines;
      }
      lines := lines + [Line(id, post.value)];
      id := id + 1;
    }
    r, printed := Ok(lines), lines;
  }

  /** One turn of the loop of `view`: fetch the account of post `id` and decode it. */
  method FetchPost(programId: Pubkey, payer: Pubkey, rpc: Ledger, id: U32) returns (r: Result<Text, PostlyError>)
    ensures r == ReadPost(rpc.hash, rpc.accounts, programId, payer, id)
  {
    var seed := PostSeed(id);
    var addr := CreateWithSeed(rpc.hash, payer, seed, programId);
    // A post seed is at most 25 bytes (PostSeedFits).
    PostSeedFits(id);
    assert addr.Ok?;
    var postAccount := rpc.GetAccount(addr.value);
    if postAccount.None? {
      return Err(PostError);
    }
    var post := AccountFromSlice(postAccount.value.data);
    if post.Err? {
      return Err(PostError);
    }
    r := Ok(post.value.post);
  }

  // ------------------------------------------------------------------- post

  /** The transaction that creates the index account: one instruction that
      allocates, at `indexAddr` and owned by the program, exactly the four
      bytes of an encoded counter. */
  function IndexCreation(programId: Pubkey, payer: Pubkey, indexAddr: Pubkey): (tx: Transaction)
    ensures |tx| == 1 && tx[0].CreateAccountWithSeed? && tx[0].to == indexAddr && tx[0].owner == programId
    ensures tx[0].space == 4 && tx[0].seed == INDEX_ACCOUNT_SEED
  {
    [CreateAccountWithSeed(payer, indexAddr, payer, INDEX_ACCOUNT_SEED, |SerializeIndex(PostlyAccountIndex(0))|, programId)]
  }

  /** Creating the index succeeds exactly when its address is free, and leaves
      there a program-owned account that decodes as counter 0. */
  lemma IndexCreationEffect(hash: Hasher, deployed: Pubkey, accts: Accounts, programId: Pubkey, payer: Pubkey)
    ensures var ia := IndexAddress(hash, programId, payer);
      Execute(hash, deployed, accts, IndexCreation(programId, payer, ia)) ==
        if ia in accts then Err(AccountAlreadyInUse)
        else Ok(accts[ia := Account(programId, SerializeIndex(PostlyAccountIndex(0)))])
  {
    var ia := IndexAddress(hash, programId, payer);
    var tx := IndexCreation(programId, payer, ia);
    ExecuteOne(hash, deployed, accts, tx[0]);
    ZeroIndex();
    assert Zeros(4) == SerializeIndex(PostlyAccountIndex(0));
  }

  /** The transaction that appends a post: first the creation of the post
      account, sized for exactly the instruction data, then the call of the
      program on the index account and that account, with that data. */
  function PostTransaction(programId: Pubkey, payer: Pubkey, indexAddr: Pubkey, postAddr: Pubkey, postSeed: string, data: seq<Byte>)
    : (tx: Transaction)
    ensures |tx| == 2 && tx[0].CreateAccountWithSeed? && tx[1].Invoke?
    ensures tx[0].to == postAddr && tx[0].space == |tx[1].data| && tx[1].data == data
    ensures tx[1].program == tx[0].owner == programId && tx[1].keys == [indexAddr, tx[0].to]
  {
    [CreateAccountWithSeed(payer, postAddr, payer, postSeed, |data|, programId),
     Invoke(programId, [indexAddr, postAddr], data)]
  }

  /** What `post` has found or made of the index when it goes on to the post. */
  datatype IndexRun = IndexRun(index: Result<PostlyAccountIndex, PostlyError>, accounts: Accounts, sent: seq<Transaction>)

  /** The first half of `post`: read the index, or create it and take the count
      as 0. It sends a transaction only when the index is missing; a failure is
      an AccountError and leaves the ledger as it was; on success the index
      account holds the counter `post` goes on with, and a created one holds 0. */
  function ProvideIndex(hash: Hasher, deployed: Pubkey, accts: Accounts, programId: Pubkey, payer: Pubkey): (pre: IndexRun)
    ensures pre.sent == [] <==> IndexAddress(hash, programId, payer) in accts
    ensures |pre.sent| <= 1
    ensures IndexAddress(hash, programId, payer) in accts ==> pre.accounts == accts
    ensures pre.index.Err? ==> pre.index.error == AccountError && pre.accounts == accts
    ensures pre.index.Ok? ==>
      IndexAddress(hash, programId, payer) in pre.accounts &&
      IndexFromSlice(pre.accounts[IndexAddress(hash, programId, payer)].data) == Ok(pre.index.value)
    ensures IndexAddress(hash, programId, payer) !in accts && pre.index.Ok? ==>
      pre.index.value.postN == 0 &&
      pre.accounts == accts[IndexAddress(hash, programId, payer) := Account(programId, SerializeIndex(PostlyAccountIndex(0)))]
  {
    var indexAddr := IndexAddress(hash, programId, payer);
    if indexAddr in accts then
      match IndexFromSlice(accts[indexAddr].data)
      case Err(_) => IndexRun(Err(AccountError), accts, [])
      case Ok(x) => IndexRun(Ok(x), accts, [])
    else
      var tx := IndexCreation(programId, payer, indexAddr);
      IndexCreationEffect(hash, deployed, accts, programId, payer);
      IndexRoundTrip(PostlyAccountIndex(0));
      match Execute(hash, deployed, accts, tx)
      case Err(_) => IndexRun(Err(AccountError), accts, [tx])
      case Ok(next) => IndexRun(Ok(PostlyAccountIndex(0)), next, [tx])
  }

  /** The result of `post`, the ledger afterwards, and the transactions it sent. */
  datatype PostRun = PostRun(result: Result<(), PostlyError>, accounts: Accounts, sent: seq<Transaction>)

  /** `post`: provide the index, then send the post transaction for the current
      count. A failure leaves the ledger as the index step left it; a success
      needed an index and sent exactly one transaction after that step's. */
  function PostSpec(hash: Hasher, deployed: Pubkey, accts: Accounts, content: Text, programId: Pubkey, payer: Pubkey): (run: PostRun)
    ensures var pre := ProvideIndex(hash, deployed, accts, programId, payer);
      |pre.sent| <= |run.sent| <= |pre.sent| + 1 && run.sent[..|pre.sent|] == pre.sent
    ensures var pre := ProvideIndex(hash, deployed, accts, programId, payer);
      run.result.Err? ==> run.accounts == pre.accounts
    ensures var pre := ProvideIndex(hash, deployed, accts, programId, payer);
      run.result.Ok? ==> pre.index.Ok? && |run.sent| == |pre.sent| + 1
  {
    var pre := ProvideIndex(hash, deployed, accts, programId, payer);
    match pre.index
    case Err(e) => PostRun(Err(e), pre.accounts, pre.sent)
    case Ok(index) =>
      match SerializeAccount(PostlyAccount(content))
      case Err(_) => PostRun(Err(AccountError), pre.accounts, pre.sent)
      case Ok(data) =>
        var tx := PostTransaction(programId, payer, IndexAddress(hash, programId, payer),
                                  PostAddress(hash, programId, payer, index.postN), PostSeed(index.postN), data);
        match Execute(hash, deployed, pre.accounts, tx)
        case Err(_) => PostRun(Err(PostError), pre.accounts, pre.sent + [tx])
        case Ok(next) => PostRun(Ok(()), next, pre.sent + [tx])
  }

  /** The first half of `post`, step by step against the ledger. */
  method EnsureIndex(programId: Pubkey, payer: Pubkey, rpc: Ledger) returns (index: Result<PostlyAccountIndex, PostlyError>)
    modifies rpc
    ensures var pre := ProvideIndex(rpc.hash, rpc.deployed, old(rpc.accounts), programId, payer);
      index == pre.index && rpc.accounts == pre.accounts && rpc.sent == old(rpc.sent) + pre.sent
  {
    var accountSeed := "postly_index";
    var derived := CreateWithSeed(rpc.hash, payer, accountSeed, programId);
    // A 12-byte seed is within the ledger's limit.
    assert derived.Ok?;
    var newAccount := derived.value;
    var existing := rpc.GetAccount(newAccount);
    if existing.Some? {
      var decoded := IndexFromSlice(existing.value.data);
      if decoded.Err? {
        return Err(AccountError);
      }
      index := Ok(decoded.value);
    } else {
      var created := PostlyAccountIndex(0);
      var buffer := SerializeIndex(created);
      var tx := [CreateAccountWithSeed(payer, newAccount, payer, accountSeed, |buffer|, programId)];
      var sent := rpc.SendAndConfirm(tx);
      if sent.Err? {
        return Err(AccountError);
      }
      index := Ok(created);
    }
  }

  /** `post`, step by step against the ledger. */
  method Post(content: Text, programId: Pubkey, payer: Pubkey, rpc: Ledger) returns (r: Result<(), PostlyError>)
    modifies rpc
    ensures var run := PostSpec(rpc.hash, rpc.deployed, old(rpc.accounts), content, programId, payer);
      r == run.result && rpc.accounts == run.accounts && rpc.sent == old(rpc.sent) + run.sent
  {
    var provided := EnsureIndex(programId, payer, rpc);
    if provided.Err? {
      return Err(provided.error);
    }
    var index := provided.value;
    var postAccount := PostlyAccount(content);
    var buffer := SerializeAccount(postAccount);
    if buffer.Err? {
      return Err(AccountError);
    }
    var postSeed := PostSeed(index.postN);
    var postAddr := CreateWithSeed(rpc.hash, payer, postSeed, programId);
    // A post seed is at most 25 bytes (PostSeedFits), so the unwrap cannot panic.
    PostSeedFits(index.postN);
    assert postAddr.Ok?;
    var accountInstruction := CreateAccountWithSeed(payer, postAddr.value, payer, postSeed, |buffer.value|, programId);
    var newAccount := IndexAddress(rpc.hash, programId, payer);
    var programInstruction := Invoke(programId, [newAccount, postAddr.value], buffer.value);
    var tx := [accountInstruction, programInstruction];
    assert tx == PostTransaction(programId, payer, newAccount, PostAddress(rpc.hash, programId, payer, index.postN), postSeed, buffer.value);
    var sent := rpc.SendAndConfirm(tx);
    if sent.Err? {
      return Err(PostError);
    }
    r := Ok(());
  }

  /** An index account that does not decode stops `post` with AccountError
      before anything is sent. */
  lemma PostCorruptIndex(hash: Hasher, deployed: Pubkey, accts: Accounts, content: Text, programId: Pubkey, payer: Pubkey)
    requires IndexAddress(hash, programId, payer) in accts
    requires IndexFromSlice(accts[IndexAddress(hash, programId, payer)].data).Err?
    ensures PostSpec(hash, deployed, accts, content, programId, payer) == PostRun(Err(AccountError), accts, [])
  {
  }

  /** Without an index account, `post` first sends a transaction that creates
      it, owned by the program and four bytes long, and fails with AccountError
      leaving the ledger as it was if that transaction fails. */
  lemma PostCreatesIndex(hash: Hasher, deployed: Pubkey, accts: Accounts, content: Text, programId: Pubkey, payer: Pubkey)
    requires IndexAddress(hash, programId, payer) !in accts
    ensures var run := PostSpec(hash, deployed, accts, content, programId, payer);
      |run.sent| >= 1 &&
      run.sent[0] == [CreateAccountWithSeed(payer, IndexAddress(hash, programId, payer), payer, "postly_index", 4, programId)]
    ensures var tx := IndexCreation(programId, payer, IndexAddress(hash, programId, payer));
      Execute(hash, deployed, accts, tx).Err? ==>
        PostSpec(hash, deployed, accts, content, programId, payer) == PostRun(Err(AccountError), accts, [tx])
  {
  }

  /** With the count at n, `post` sends as its last transaction the creation of
      the account of post n, sized for the encoded post, followed by the call of
      the program on the index account and that account, in that order; it
      succeeds exactly when that transaction does, and the ledger is then what
      the transaction made of it. */
  lemma PostSends(hash: Hasher, deployed: Pubkey, accts: Accounts, content: Text, programId: Pubkey, payer: Pubkey)
    requires ProvideIndex(hash, deployed, accts, programId, payer).index.Ok?
    requires |content| <= MAX_U32
    ensures var pre := ProvideIndex(hash, deployed, accts, programId, payer);
      var n := pre.index.value.postN;
      var data := SerializeAccount(PostlyAccount(content)).value;
      var tx := [CreateAccountWithSeed(payer, PostAddress(hash, programId, payer, n), payer, PostSeed(n), |data|, programId),
                 Invoke(programId, [IndexAddress(hash, programId, payer), PostAddress(hash, programId, payer, n)], data)];
      var executed := Execute(hash, deployed, pre.accounts, tx);
      var run := PostSpec(hash, deployed, accts, content, programId, payer);
      |data| == 4 + |content| && run.sent == pre.sent + [tx] &&
      (run.result.Ok? <==> executed.Ok?) &&
      (executed.Ok? ==> run.accounts == executed.value) &&
      (executed.Err? ==> run == PostRun(Err(PostError), pre.accounts, pre.sent + [tx]))
  {
  }

  lemma UpdateTwice(m: Accounts, k: Pubkey, first: Account, second: Account)
    ensures m[k := first][k := second] == m[k := second]
  {
  }

  /** Execute of a one-instruction transaction is that instruction's step. */
  lemma ExecuteOne(hash: Hasher, deployed: Pubkey, accts: Accounts, a: Instruction)
    ensures Execute(hash, deployed, accts, [a]) == Step(hash, deployed, accts, a)
  {
    assert [a][1..] == [];
  }

  /** The index as `post` finds it: the encoded counter n if present, and
      otherwise freshly created, which holds the encoding of 0. */
  lemma IndexReady(hash: Hasher, accts: Accounts, programId: Pubkey, payer: Pubkey, n: U32)
    requires var ia := IndexAddress(hash, programId, payer);
      (n == 0 && ia !in accts) || (ia in accts && accts[ia] == Account(programId, SerializeIndex(PostlyAccountIndex(n))))
    ensures var pre := ProvideIndex(hash, programId, accts, programId, payer);
      pre.index == Ok(PostlyAccountIndex(n)) &&
      pre.accounts == accts[IndexAddress(hash, programId, payer) := Account(programId, SerializeIndex(PostlyAccountIndex(n)))]
  {
    var ia := IndexAddress(hash, programId, payer);
    if ia in accts {
      IndexRoundTrip(PostlyAccountIndex(n));
      assert accts[ia := accts[ia]] == accts;
    } else {
      var tx := IndexCreation(programId, payer, ia);
      ExecuteOne(hash, programId, accts, tx[0]);
      ZeroIndex();
      assert Zeros(4) == SerializeIndex(PostlyAccountIndex(0));
    }
  }

  /** The program call of `post` on an index holding n and a fresh zero-filled
      post account of the right size: the counter becomes n + 1 and the post
      account receives the encoding. */
  lemma InvokeAppends(accts: Accounts, programId: Pubkey, ia: Pubkey, pa: Pubkey, content: Text, n: U32)
    requires n < MAX_U32 && |content| <= MAX_U32 && ia != pa
    requires ia in accts && accts[ia] == Account(programId, SerializeIndex(PostlyAccountIndex(n)))
    requires pa in accts && accts[pa] == Account(programId, Zeros(|SerializeAccount(PostlyAccount(content)).value|))
    ensures var data := SerializeAccount(PostlyAccount(content)).value;
      InvokeStep(programId, accts, programId, [ia, pa], data) ==
        Ok(accts[ia := Account(programId, SerializeIndex(PostlyAccountIndex(n + 1)))][pa := Account(programId, data)])
  {
    var post := PostlyAccount(content);
    var data := SerializeAccount(post).value;
    var index := Lookup(accts, ia);
    var target := Lookup(accts, pa);
    IndexRoundTrip(PostlyAccountIndex(n));
    AccountRoundTrip(post);
    WriteAllExact(index.data, SerializeIndex(PostlyAccountIndex(n + 1)));
    WriteAllExact(target.data, data);
    assert Process(programId, index, target, data) == Outcome(Ok(()), SerializeIndex(PostlyAccountIndex(n + 1)), data);
  }

  /** The post transaction on a ledger whose counter holds n and where the
      account of post n is free. */
  lemma TransactionAppends(hash: Hasher, accts: Accounts, content: Text, programId: Pubkey, payer: Pubkey, n: U32)
    requires n < MAX_U32 && 4 + |content| <= MAX_PERMITTED_DATA_LENGTH
    requires var ia := IndexAddress(hash, programId, payer);
      ia in accts && accts[ia] == Account(programId, SerializeIndex(PostlyAccountIndex(n)))
    requires PostAddress(hash, programId, payer, n) !in accts
    requires PostAddress(hash, programId, payer, n) != IndexAddress(hash, programId, payer)
    ensures var ia := IndexAddress(hash, programId, payer);
      var pa := PostAddress(hash, programId, payer, n);
      var data := SerializeAccount(PostlyAccount(content)).value;
      Execute(hash, programId, accts, [CreateAccountWithSeed(payer, pa, payer, PostSeed(n), |data|, programId), Invoke(programId, [ia, pa], data)]) ==
        Ok(accts[ia := Account(programId, SerializeIndex(PostlyAccountIndex(n + 1)))][pa := Account(programId, data)])
  {
    var ia := IndexAddress(hash, programId, payer);
    var pa := PostAddress(hash, programId, payer, n);
    var data := SerializeAccount(PostlyAccount(content)).value;
    var create := CreateAccountWithSeed(payer, pa, payer, PostSeed(n), |data|, programId);
    var call := Invoke(programId, [ia, pa], data);
    var created := accts[pa := Account(programId, Zeros(|data|))];
    var updated := created[ia := Account(programId, SerializeIndex(PostlyAccountIndex(n + 1)))][pa := Account(programId, data)];
    assert Step(hash, programId, accts, create) == Ok(created) by {
      assert |data| == 4 + |content|;
    }
    assert Step(hash, programId, created, call) == Ok(updated) by {
      InvokeAppends(created, programId, ia, pa, content, n);
    }
    assert Execute(hash, programId, accts, [create, call]) == Ok(updated) by {
      ExecuteOne(hash, programId, created, call);
      assert [create, call][1..] == [call];
    }
    assert updated == accts[ia := Account(programId, SerializeIndex(PostlyAccountIndex(n + 1)))][pa := Account(programId, data)];
  }

  /** One successful `post`: when the counter holds n (or, for the first post,
      does not exist yet) and the account of post n is free, `post` succeeds,
      the counter becomes n + 1, post n holds the encoded content, and no other
      account changes. */
  lemma PostStep(hash: Hasher, accts: Accounts, content: Text, programId: Pubkey, payer: Pubkey, n: U32)
    requires n < MAX_U32 && 4 + |content| <= MAX_PERMITTED_DATA_LENGTH
    requires var ia := IndexAddress(hash, programId, payer);
      (n == 0 && ia !in accts) || (ia in accts && accts[ia] == Account(programId, SerializeIndex(PostlyAccountIndex(n))))
    requires PostAddress(hash, programId, payer, n) !in accts
    requires PostAddress(hash, programId, payer, n) != IndexAddress(hash, programId, payer)
    ensures var run := PostSpec(hash, programId, accts, content, programId, payer);
      run.result == Ok(()) &&
      run.accounts == accts[IndexAddress(hash, programId, payer) := Account(programId, SerializeIndex(PostlyAccountIndex(n + 1)))]
                           [PostAddress(hash, programId, payer, n) := Account(programId, SerializeAccount(PostlyAccount(content)).value)]
  {
    var ia := IndexAddress(hash, programId, payer);
    var pa := PostAddress(hash, programId, payer, n);
    var before := accts[ia := Account(programId, SerializeIndex(PostlyAccountIndex(n)))];
    var data := SerializeAccount(PostlyAccount(content)).value;
    IndexReady(hash, accts, programId, payer, n);
    PostSends(hash, programId, accts, content, programId, payer);
    TransactionAppends(hash, before, content, programId, payer, n);
    UpdateTwice(accts, ia, Account(programId, SerializeIndex(PostlyAccountIndex(n))), Account(programId, SerializeIndex(PostlyAccountIndex(n + 1))));
  }

  /** A successful program call on (ia, pa): the program is the deployed one,
      both accounts are the program's, the index decoded to a counter below
      u32::MAX, the data is an encoded post that fits; afterwards the index
      holds the counter plus one, the post account starts with the data, and
      nothing else changed. */
  lemma InvokeSucceeded(deployed: Pubkey, accts: Accounts, program: Pubkey, ia: Pubkey, pa: Pubkey, data: seq<Byte>)
    requires InvokeStep(deployed, accts, program, [ia, pa], data).Ok?
    ensures program == deployed && ia != pa
    ensures var index := Lookup(accts, ia);
      var post := Lookup(accts, pa);
      index.owner == program && post.owner == program && |index.data| == 4 &&
      IndexFromSlice(index.data).value.postN < MAX_U32 && AccountFromSlice(data).Ok? && |data| <= |post.data| &&
      InvokeStep(deployed, accts, program, [ia, pa], data).value ==
        accts[ia := Account(program, SerializeIndex(PostlyAccountIndex(IndexFromSlice(index.data).value.postN + 1)))]
             [pa := Account(program, data + post.data[|data|..])]
  {
    InvokeRan(deployed, accts, program, ia, pa, data);
    ProcessWrites(program, Lookup(accts, ia), Lookup(accts, pa), data);
  }

  /** A successful program call ran the handler, which succeeded, and wrote
      its two buffers back to the accounts it was given. */
  lemma InvokeRan(deployed: Pubkey, accts: Accounts, program: Pubkey, ia: Pubkey, pa: Pubkey, data: seq<Byte>)
    requires InvokeStep(deployed, accts, program, [ia, pa], data).Ok?
    ensures var index := Lookup(accts, ia);
      var post := Lookup(accts, pa);
      program == deployed && ia != pa && CanIncrement(program, index, post) &&
      Process(program, index, post, data).result.Ok? &&
      InvokeStep(deployed, accts, program, [ia, pa], data).value ==
        accts[ia := Account(index.owner, Process(program, index, post, data).indexData)]
             [pa := Account(post.owner, Process(program, index, post, data).postData)]
  {
  }

  /** The buffers a successful handler run leaves: the next counter in the
      index buffer, and the encoded post over the start of the post buffer. */
  lemma ProcessWrites(program: Pubkey, index: Account, post: Account, data: seq<Byte>)
    requires CanIncrement(program, index, post)
    requires Process(program, index, post, data).result.Ok?
    ensures index.owner == program && post.owner == program && |index.data| == 4 &&
      AccountFromSlice(data).Ok? && |data| <= |post.data|
    ensures var o := Process(program, index, post, data);
      o.indexData == SerializeIndex(PostlyAccountIndex(IndexFromSlice(index.data).value.postN + 1)) &&
      o.postData == data + post.data[|data|..]
  {
    ProcessSucceeds(program, index, post, data);
    var o := Process(program, index, post, data);
    assert o.postData == data + post.data[|data|..];
  }

  /** A successful post transaction: the program is the deployed one, the post
      address was free and differs from the index address, and the index was
      the program's and decoded to n below u32::MAX; afterwards the index holds
      n + 1 and the post account exactly the data. */
  lemma TransactionSucceeded(hash: Hasher, deployed: Pubkey, before: Accounts, programId: Pubkey, payer: Pubkey,
                             ia: Pubkey, pa: Pubkey, seed: string, data: seq<Byte>)
    requires Execute(hash, deployed, before, [CreateAccountWithSeed(payer, pa, payer, seed, |data|, programId),
                                              Invoke(programId, [ia, pa], data)]).Ok?
    ensures deployed == programId && ia != pa && pa !in before && |data| <= MAX_PERMITTED_DATA_LENGTH
    ensures ia in before && before[ia].owner == programId && IndexFromSlice(before[ia].data).Ok? &&
      IndexFromSlice(before[ia].data).value.postN < MAX_U32
    ensures AccountFromSlice(data).Ok?
    ensures Execute(hash, deployed, before, [CreateAccountWithSeed(payer, pa, payer, seed, |data|, programId),
                                             Invoke(programId, [ia, pa], data)]).value ==
      before[ia := Account(programId, SerializeIndex(PostlyAccountIndex(IndexFromSlice(before[ia].data).value.postN + 1)))]
            [pa := Account(programId, data)]
  {
    var create := CreateAccountWithSeed(payer, pa, payer, seed, |data|, programId);
    var call := Invoke(programId, [ia, pa], data);
    assert [create, call][1..] == [call];
    var created := before[pa := Account(programId, Zeros(|data|))];
    assert Step(hash, deployed, before, create) == Ok(created);
    ExecuteOne(hash, deployed, created, call);
    InvokeSucceeded(deployed, created, programId, ia, pa, data);
    assert data + Zeros(|data|)[|data|..] == data;
    assert Lookup(created, ia) == Lookup(before, ia);
  }

  /** The converse of PostStep: whatever the ledger, a successful `post` found
      the program deployed, a counter n below u32::MAX (or no index, and then
      n is 0), and the account of post n free and distinct from the index;
      afterwards the counter holds n + 1, post n holds the encoded content, and
      no other account changed. */
  lemma PostSucceeded(hash: Hasher, deployed: Pubkey, accts: Accounts, content: Text, programId: Pubkey, payer: Pubkey)
    requires PostSpec(hash, deployed, accts, content, programId, payer).result.Ok?
    ensures ProvideIndex(hash, deployed, accts, programId, payer).index.Ok? && |content| <= MAX_U32
    ensures var n := ProvideIndex(hash, deployed, accts, programId, payer).index.value.postN;
      var ia := IndexAddress(hash, programId, payer);
      var pa := PostAddress(hash, programId, payer, n);
      deployed == programId && n < MAX_U32 && 4 + |content| <= MAX_PERMITTED_DATA_LENGTH &&
      ((n == 0 && ia !in accts) || (ia in accts && accts[ia] == Account(programId, SerializeIndex(PostlyAccountIndex(n))))) &&
      pa !in accts && pa != ia &&
      PostSpec(hash, deployed, accts, content, programId, payer).accounts ==
        accts[ia := Account(programId, SerializeIndex(PostlyAccountIndex(n + 1)))]
             [pa := Account(programId, SerializeAccount(PostlyAccount(content)).value)]
  {
    var pre := ProvideIndex(hash, deployed, accts, programId, payer);
    PostReached(hash, deployed, accts, content, programId, payer);
    var n := pre.index.value.postN;
    var ia := IndexAddress(hash, programId, payer);
    var pa := PostAddress(hash, programId, payer, n);
    var data := SerializeAccount(PostlyAccount(content)).value;
    TransactionSucceeded(hash, deployed, pre.accounts, programId, payer, ia, pa, PostSeed(n), data);
    IndexHistory(hash, deployed, accts, programId, payer, pa,
                 Account(programId, SerializeIndex(PostlyAccountIndex(n + 1))), Account(programId, data));
  }

  /** A successful `post` got past the index step and the encoding, and its
      post transaction succeeded on the ledger the index step left. */
  lemma PostReached(hash: Hasher, deployed: Pubkey, accts: Accounts, content: Text, programId: Pubkey, payer: Pubkey)
    requires PostSpec(hash, deployed, accts, content, programId, payer).result.Ok?
    ensures ProvideIndex(hash, deployed, accts, programId, payer).index.Ok? && |content| <= MAX_U32
    ensures var pre := ProvideIndex(hash, deployed, accts, programId, payer);
      var n := pre.index.value.postN;
      var data := SerializeAccount(PostlyAccount(content)).value;
      var tx := [CreateAccountWithSeed(payer, PostAddress(hash, programId, payer, n), payer, PostSeed(n), |data|, programId),
                 Invoke(programId, [IndexAddress(hash, programId, payer), PostAddress(hash, programId, payer, n)], data)];
      Execute(hash, deployed, pre.accounts, tx).Ok? &&
      PostSpec(hash, deployed, accts, content, programId, payer).accounts == Execute(hash, deployed, pre.accounts, tx).value
  {
    assert ProvideIndex(hash, deployed, accts, programId, payer).index.Ok? && SerializeAccount(PostlyAccount(content)).Ok?;
    PostSends(hash, deployed, accts, content, programId, payer);
  }

  /** When the index step succeeded and left a program-owned index, the index
      was there already, program-owned and holding the counter, or missing with
      the counter at 0; either way, overwriting the index (and one other
      address) gives the same ledger from before or after the step. */
  lemma IndexHistory(hash: Hasher, deployed: Pubkey, accts: Accounts, programId: Pubkey, payer: Pubkey,
                     pa: Pubkey, index: Account, post: Account)
    requires ProvideIndex(hash, deployed, accts, programId, payer).index.Ok?
    requires var pre := ProvideIndex(hash, deployed, accts, programId, payer);
      IndexAddress(hash, programId, payer) in pre.accounts && pre.accounts[IndexAddress(hash, programId, payer)].owner == programId
    ensures var pre := ProvideIndex(hash, deployed, accts, programId, payer);
      var n := pre.index.value.postN;
      var ia := IndexAddress(hash, programId, payer);
      ((n == 0 && ia !in accts) || (ia in accts && accts[ia] == Account(programId, SerializeIndex(PostlyAccountIndex(n))))) &&
      (pa !in pre.accounts ==> pa !in accts) &&
      pre.accounts[ia := index][pa := post] == accts[ia := index][pa := post]
  {
    var ia := IndexAddress(hash, programId, payer);
    if ia !in accts {
      UpdateTwice(accts, ia, Account(programId, SerializeIndex(PostlyAccountIndex(0))), index);
    }
  }

  // ------------------------------------------------------------ end to end

  /** Posting `contents` one after the other, stopping at the first failure. */
  function PostAll(hash: Hasher, deployed: Pubkey, accts: Accounts, contents: seq<Text>, programId: Pubkey, payer: Pubkey)
    : Result<Accounts, PostlyError>
    decreases |contents|
  {
    if contents == [] then Ok(accts)
    else
      match PostAll(hash, deployed, accts, contents[..|contents| - 1], programId, payer)
      case Err(e) => Err(e)
      case Ok(before) =>
        var run := PostSpec(hash, deployed, before, contents[|contents| - 1], programId, payer);
        if run.result.Err? then Err(run.result.error) else Ok(run.accounts)
  }

  /** No account exists yet at the index address or at the addresses of posts
      0..k-1, and those k + 1 addresses are pairwise distinct (the hash does not
      collide on these seeds; the seeds themselves are distinct by
      PostSeedInjective and PostSeedNotIndexSeed). */
  ghost predicate Unclaimed(hash: Hasher, accts: Accounts, programId: Pubkey, payer: Pubkey, k: nat)
  {
    IndexAddress(hash, programId, payer) !in accts &&
    (forall i: U32 :: 0 <= i < k ==>
      PostAddress(hash, programId, payer, i) !in accts && PostAddress(hash, programId, payer, i) != IndexAddress(hash, programId, payer)) &&
    (forall i: U32, j: U32 :: 0 <= i < j < k ==> PostAddress(hash, programId, payer, i) != PostAddress(hash, programId, payer, j))
  }

  /** The ledger after posting `contents`, starting from `start`: nothing
      changed if nothing was posted; otherwise the counter holds |contents|,
      post i holds contents[i], later post addresses are still free, and every
      account of `start` is unchanged. */
  ghost predicate Posted(hash: Hasher, start: Accounts, accts: Accounts, programId: Pubkey, payer: Pubkey, contents: seq<Text>, k: nat)
    requires |contents| <= k <= MAX_U32
  {
    var ia := IndexAddress(hash, programId, payer);
    (|contents| == 0 ==> accts == start) &&
    (|contents| > 0 ==>
      ia in accts && accts[ia] == Account(programId, SerializeIndex(PostlyAccountIndex(|contents|))) &&
      (forall i: U32 :: 0 <= i < |contents| ==>
        PostAddress(hash, programId, payer, i) in accts &&
        accts[PostAddress(hash, programId, payer, i)].owner == programId &&
        SerializeAccount(PostlyAccount(contents[i])) == Ok(accts[PostAddress(hash, programId, payer, i)].data)) &&
      (forall i: U32 :: |contents| <= i < k ==> PostAddress(hash, programId, payer, i) !in accts) &&
      (forall a :: a in start ==> a in accts && accts[a] == start[a]))
  }

  /** Writing counter n + 1 and post n into a ledger where n posts are
      recorded records n + 1 posts. */
  lemma PostedExtend(hash: Hasher, start: Accounts, before: Accounts, init: seq<Text>, last: Text, programId: Pubkey, payer: Pubkey, k: nat)
    requires |init| < k <= MAX_U32 && |last| <= MAX_U32
    requires Unclaimed(hash, start, programId, payer, k)
    requires Posted(hash, start, before, programId, payer, init, k)
    ensures var n: U32 := |init|;
      var after := before[IndexAddress(hash, programId, payer) := Account(programId, SerializeIndex(PostlyAccountIndex(n + 1)))]
                         [PostAddress(hash, programId, payer, n) := Account(programId, SerializeAccount(PostlyAccount(last)).value)];
      Posted(hash, start, after, programId, payer, init + [last], k)
  {
    var n: U32 := |init|;
    var contents := init + [last];
    var ia := IndexAddress(hash, programId, payer);
    var pa := PostAddress(hash, programId, payer, n);
    var data := SerializeAccount(PostlyAccount(last)).value;
    var after := before[ia := Account(programId, SerializeIndex(PostlyAccountIndex(n + 1)))][pa := Account(programId, data)];
    forall i: U32 | 0 <= i < |contents|
      ensures PostAddress(hash, programId, payer, i) in after
      ensures after[PostAddress(hash, programId, payer, i)].owner == programId
      ensures SerializeAccount(PostlyAccount(contents[i])) == Ok(after[PostAddress(hash, programId, payer, i)].data)
    {
      if i < n {
        assert contents[i] == init[i];
        assert PostAddress(hash, programId, payer, i) != pa;
      }
    }
    forall i: U32 | |contents| <= i < k
      ensures PostAddress(hash, programId, payer, i) !in after
    {
      assert PostAddress(hash, programId, payer, i) != pa;
    }
    forall a | a in start
      ensures a in after && after[a] == start[a]
    {
      assert a != ia && a != pa;
    }
  }

  /** With n posts recorded, the counter holds n (or is missing when n is 0)
      and the account of post n is free and apart from the index. */
  lemma PostedReady(hash: Hasher, start: Accounts, before: Accounts, init: seq<Text>, programId: Pubkey, payer: Pubkey, k: nat)
    requires |init| < k <= MAX_U32
    requires Unclaimed(hash, start, programId, payer, k)
    requires Posted(hash, start, before, programId, payer, init, k)
    ensures var n: U32 := |init|;
      var ia := IndexAddress(hash, programId, payer);
      var pa := PostAddress(hash, programId, payer, n);
      pa !in before && pa != ia &&
      ((n == 0 && ia !in before) || (ia in before && before[ia] == Account(programId, SerializeIndex(PostlyAccountIndex(n)))))
  {
  }

  /** One more post succeeds and keeps `Posted`. */
  lemma PostedStep(hash: Hasher, start: Accounts, before: Accounts, init: seq<Text>, last: Text, programId: Pubkey, payer: Pubkey, k: nat)
    requires |init| < k <= MAX_U32
    requires Unclaimed(hash, start, programId, payer, k)
    requires 4 + |last| <= MAX_PERMITTED_DATA_LENGTH
    requires Posted(hash, start, before, programId, payer, init, k)
    ensures PostSpec(hash, programId, before, last, programId, payer).result == Ok(())
    ensures Posted(hash, start, PostSpec(hash, programId, before, last, programId, payer).accounts, programId, payer, init + [last], k)
  {
    var n: U32 := |init|;
    var after := before[IndexAddress(hash, programId, payer) := Account(programId, SerializeIndex(PostlyAccountIndex(n + 1)))]
                       [PostAddress(hash, programId, payer, n) := Account(programId, SerializeAccount(PostlyAccount(last)).value)];
    PostedReady(hash, start, before, init, programId, payer, k);
    PostStep(hash, before, last, programId, payer, n);
    assert PostSpec(hash, programId, before, last, programId, payer).accounts == after;
    PostedExtend(hash, start, before, init, last, programId, payer, k);
  }

  lemma {:induction false} PostAllState(hash: Hasher, start: Accounts, contents: seq<Text>, programId: Pubkey, payer: Pubkey, k: nat)
    requires |contents| <= k <= MAX_U32
    requires Unclaimed(hash, start, programId, payer, k)
    requires forall i :: 0 <= i < |contents| ==> 4 + |contents[i]| <= MAX_PERMITTED_DATA_LENGTH
    ensures PostAll(hash, programId, start, contents, programId, payer).Ok?
    ensures Posted(hash, start, PostAll(hash, programId, start, contents, programId, payer).value, programId, payer, contents, k)
    decreases |contents|
  {
    if contents != [] {
      var init := contents[..|contents| - 1];
      var last := contents[|contents| - 1];
      assert contents == init + [last];
      PostAllState(hash, start, init, programId, payer, k);
      var before := PostAll(hash, programId, start, init, programId, payer).value;
      PostedStep(hash, start, before, init, last, programId, payer, k);
      assert PostAll(hash, programId, start, contents, programId, payer) ==
        Ok(PostSpec(hash, programId, before, last, programId, payer).accounts);
    }
  }

  /** Never posted: `view` fails with AccountError rather than showing nothing. */
  lemma ViewBeforeFirstPost(hash: Hasher, accts: Accounts, programId: Pubkey, payer: Pubkey)
    requires IndexAddress(hash, programId, payer) !in accts
    ensures ViewSpec(hash, accts, programId, payer) == Err(AccountError)
  {
  }

  /** After k >= 1 posts on a ledger where their addresses were free, `view`
      shows ids 0..k-1 in order, each with the content posted at that position. */
  lemma EndToEnd(hash: Hasher, start: Accounts, contents: seq<Text>, programId: Pubkey, payer: Pubkey)
    requires 0 < |contents| <= MAX_U32
    requires Unclaimed(hash, start, programId, payer, |contents|)
    requires forall i :: 0 <= i < |contents| ==> 4 + |contents[i]| <= MAX_PERMITTED_DATA_LENGTH
    ensures PostAll(hash, programId, start, contents, programId, payer).Ok?
    ensures var view := ViewSpec(hash, PostAll(hash, programId, start, contents, programId, payer).value, programId, payer);
      view.Ok? && |view.value| == |contents| &&
      forall i :: 0 <= i < |contents| ==> view.value[i] == Line(i, contents[i])
  {
    var k := |contents|;
    PostAllState(hash, start, contents, programId, payer, k);
    var accts := PostAll(hash, programId, start, contents, programId, payer).value;
    var ia := IndexAddress(hash, programId, payer);
    IndexRoundTrip(PostlyAccountIndex(k));
    forall i: U32 | 0 <= i < k
      ensures ReadPost(hash, accts, programId, payer, i) == Ok(contents[i])
    {
      AccountRoundTrip(PostlyAccount(contents[i]));
      ReadPostOk(hash, accts, programId, payer, i);
    }
    ViewPostsAllRead(hash, accts, programId, payer, k);
    ViewPostsOk(hash, accts, programId, payer, k);
    assert ViewSpec(hash, accts, programId, payer) == ViewPosts(hash, accts, programId, payer, k);
  }

  /** Post `id` sits at its own address, apart from the index, owned by the
      program and holding the encoding of `content`. */
  ghost predicate Holds(hash: Hasher, accts: Accounts, programId: Pubkey, payer: Pubkey, id: U32, content: Text)
  {
    var a := PostAddress(hash, programId, payer, id);
    a != IndexAddress(hash, programId, payer) && a in accts && accts[a].owner == programId &&
    SerializeAccount(PostlyAccount(content)) == Ok(accts[a].data)
  }

  /** Writing another address keeps a post where it is. */
  lemma HoldsKept(hash: Hasher, accts: Accounts, programId: Pubkey, payer: Pubkey, id: U32, content: Text, k: Pubkey, v: Account)
    requires Holds(hash, accts, programId, payer, id, content)
    requires PostAddress(hash, programId, payer, id) != k
    ensures Holds(hash, accts[k := v], programId, payer, id, content)
  {
  }

  /** The ledger records `contents` as posted from scratch: no index if nothing
      was posted, otherwise the counter holds |contents|, and post i holds
      contents[i]. */
  ghost predicate Recorded(hash: Hasher, accts: Accounts, programId: Pubkey, payer: Pubkey, contents: seq<Text>)
  {
    var ia := IndexAddress(hash, programId, payer);
    |contents| <= MAX_U32 &&
    (|contents| == 0 ==> ia !in accts) &&
    (|contents| > 0 ==> ia in accts && accts[ia] == Account(programId, SerializeIndex(PostlyAccountIndex(|contents|)))) &&
    forall i: U32 :: 0 <= i < |contents| ==> Holds(hash, accts, programId, payer, i, contents[i])
  }

  /** On a ledger that records `init`, an index that reads as n (or is
      missing, with n = 0) has n = |init|. */
  lemma RecordedCount(hash: Hasher, before: Accounts, init: seq<Text>, programId: Pubkey, payer: Pubkey, n: U32)
    requires Recorded(hash, before, programId, payer, init)
    requires var ia := IndexAddress(hash, programId, payer);
      (n == 0 && ia !in before) || (ia in before && before[ia] == Account(programId, SerializeIndex(PostlyAccountIndex(n))))
    ensures n == |init|
  {
    if |init| > 0 {
      IndexEncodingInjective(PostlyAccountIndex(n), PostlyAccountIndex(|init|));
    }
  }

  /** Writing counter n + 1 and post n, at a free address apart from the index,
      into a ledger that records n posts records n + 1 posts. */
  lemma RecordedExtend(hash: Hasher, before: Accounts, init: seq<Text>, last: Text, programId: Pubkey, payer: Pubkey)
    requires Recorded(hash, before, programId, payer, init)
    requires |init| < MAX_U32 && |last| <= MAX_U32
    requires PostAddress(hash, programId, payer, |init|) !in before
    requires PostAddress(hash, programId, payer, |init|) != IndexAddress(hash, programId, payer)
    ensures var n: U32 := |init|;
      var after := before[IndexAddress(hash, programId, payer) := Account(programId, SerializeIndex(PostlyAccountIndex(n + 1)))]
                         [PostAddress(hash, programId, payer, n) := Account(programId, SerializeAccount(PostlyAccount(last)).value)];
      Recorded(hash, after, programId, payer, init + [last])
  {
    var n: U32 := |init|;
    var contents := init + [last];
    var ia := IndexAddress(hash, programId, payer);
    var pa := PostAddress(hash, programId, payer, n);
    var after := before[ia := Account(programId, SerializeIndex(PostlyAccountIndex(n + 1)))]
                       [pa := Account(programId, SerializeAccount(PostlyAccount(last)).value)];
    var index := Account(programId, SerializeIndex(PostlyAccountIndex(n + 1)));
    var post := Account(programId, SerializeAccount(PostlyAccount(last)).value);
    assert after[ia] == index;
    forall i: U32 | 0 <= i < |contents|
      ensures Holds(hash, after, programId, payer, i, contents[i])
    {
      if i < n {
        assert contents[i] == init[i];
        HoldsKept(hash, before, programId, payer, i, init[i], ia, index);
        HoldsKept(hash, before[ia := index], programId, payer, i, init[i], pa, post);
      } else {
        assert i == n && contents[i] == last;
      }
    }
  }

  /** A successful `post` on a ledger that records `init` records `init + [last]`. */
  lemma RecordedStep(hash: Hasher, deployed: Pubkey, before: Accounts, init: seq<Text>, last: Text, programId: Pubkey, payer: Pubkey)
    requires Recorded(hash, before, programId, payer, init)
    requires PostSpec(hash, deployed, before, last, programId, payer).result.Ok?
    ensures Recorded(hash, PostSpec(hash, deployed, before, last, programId, payer).accounts, programId, payer, init + [last])
  {
    PostSucceeded(hash, deployed, before, last, programId, payer);
    RecordedCount(hash, before, init, programId, payer, ProvideIndex(hash, deployed, before, programId, payer).index.value.postN);
    RecordedExtend(hash, before, init, last, programId, payer);
  }

  /** Successful posts of `contents` from a ledger without an index leave it
      recording `contents`; in particular at most u32::MAX posts succeed. */
  lemma {:induction false} SuccessfulPostsRecorded(hash: Hasher, deployed: Pubkey, start: Accounts, contents: seq<Text>,
                                                   programId: Pubkey, payer: Pubkey)
    requires IndexAddress(hash, programId, payer) !in start
    requires PostAll(hash, deployed, start, contents, programId, payer).Ok?
    ensures Recorded(hash, PostAll(hash, deployed, start, contents, programId, payer).value, programId, payer, contents)
    decreases |contents|
  {
    if contents != [] {
      var init := contents[..|contents| - 1];
      var last := contents[|contents| - 1];
      assert contents == init + [last];
      assert PostAll(hash, deployed, start, init, programId, payer).Ok?;
      SuccessfulPostsRecorded(hash, deployed, start, init, programId, payer);
      var before := PostAll(hash, deployed, start, init, programId, payer).value;
      RecordedStep(hash, deployed, before, init, last, programId, payer);
    }
  }

  /** After successful posts of `contents`, starting with no index and with no
      assumption about the addresses, `view` shows ids 0..k-1 in order, each
      with the content posted at that position (and fails with AccountError if
      nothing was posted). The ledger's refusal to create an account at an
      address in use is what rules out collisions. */
  lemma SuccessfulPostsView(hash: Hasher, deployed: Pubkey, start: Accounts, contents: seq<Text>, programId: Pubkey, payer: Pubkey)
    requires IndexAddress(hash, programId, payer) !in start
    requires PostAll(hash, deployed, start, contents, programId, payer).Ok?
    ensures |contents| <= MAX_U32
    ensures var view := ViewSpec(hash, PostAll(hash, deployed, start, contents, programId, payer).value, programId, payer);
      (contents == [] ==> view == Err(AccountError)) &&
      (contents != [] ==>
        view.Ok? && |view.value| == |contents| &&
        forall i :: 0 <= i < |contents| ==> view.value[i] == Line(i, contents[i]))
  {
    SuccessfulPostsRecorded(hash, deployed, start, contents, programId, payer);
    var accts := PostAll(hash, deployed, start, contents, programId, payer).value;
    var k := |contents|;
    if k > 0 {
      IndexRoundTrip(PostlyAccountIndex(k));
      forall i: U32 | 0 <= i < k
        ensures ReadPost(hash, accts, programId, payer, i) == Ok(contents[i])
      {
        AccountRoundTrip(PostlyAccount(contents[i]));
        ReadPostOk(hash, accts, programId, payer, i);
      }
      ViewPostsAllRead(hash, accts, programId, payer, k);
      ViewPostsOk(hash, accts, programId, payer, k);
      assert ViewSpec(hash, accts, programId, payer) == ViewPosts(hash, accts, programId, payer, k);
    }
  }
}
