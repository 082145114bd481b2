/** The on-chain program: one instruction that increments the post counter held
    in the index account and writes the post carried by the instruction into
    the post account, both in place. */
module Program {
  import opened Wrappers
  import opened Borsh
  import opened Util
  import opened Keys

  datatype ProgramError =
    | NotEnoughAccountKeys      // fewer accounts than the instruction reads
    | IncorrectProgramId        // an account is not owned by this program
    | BorshIoError(e: IoError)  // a decode or an in-place write failed

  /** The value of an account as the runtime lends it to a program: its owner
      and its data. */
  datatype Account = Account(owner: Pubkey, data: seq<Byte>)

  /** `AccountInfo`: the owner is read-only, the data buffer has a fixed length
      and is written in place. */
  class AccountInfo {
    const key: Pubkey
    const owner: Pubkey
    const data: array<Byte>

    constructor (key: Pubkey, owner: Pubkey, contents: seq<Byte>)
      ensures this.key == key && this.owner == owner
      ensures fresh(data) && data[..] == contents
    {
      this.key := key;
      this.owner := owner;
      this.data := new Byte[|contents|](i requires 0 <= i < |contents| => contents[i]);
    }
  }

  /** The increment of `post_n` does not overflow: the counter is below
      `u32::MAX` whenever the handler gets as far as incrementing it. */
  predicate CanIncrement(programId: Pubkey, index: Account, post: Account)
  {
    (index.owner == programId && post.owner == programId && IndexFromSlice(index.data).Ok?) ==>
      IndexFromSlice(index.data).value.postN < MAX_U32
  }

  /** What the handler returns and what the two data buffers hold afterwards. */
  datatype Outcome = Outcome(result: Result<(), ProgramError>, indexData: seq<Byte>, postData: seq<Byte>)

  /** The handler on the values of its two accounts, in the order of its steps:
      owner check, decode and increment the index and write it back, decode the
      post from the instruction data and write it into the post account. */
  function Process(programId: Pubkey, index: Account, post: Account, input: seq<Byte>): (o: Outcome)
    requires CanIncrement(programId, index, post)
    ensures |o.indexData| == |index.data| && |o.postData| == |post.data|
  {
    if index.owner != programId || post.owner != programId then
      Outcome(Err(IncorrectProgramId), index.data, post.data)
    else
      match IndexFromSlice(index.data)
      case Err(e) => Outcome(Err(BorshIoError(e)), index.data, post.data)
      case Ok(x) =>
        var indexData := WriteAll(index.data, SerializeIndex(PostlyAccountIndex(x.postN + 1))).buf;
        match AccountFromSlice(input)
        case Err(e) => Outcome(Err(BorshIoError(e)), indexData, post.data)
        case Ok(p) =>
          var w := WriteAll(post.data, SerializeAccount(p).value);
          Outcome(if w.ok then Ok(()) else Err(BorshIoError(WriteZero)), indexData, w.buf)
  }

  /** An account not owned by the program stops the handler before any write. */
  lemma WrongOwnerChangesNothing(programId: Pubkey, index: Account, post: Account, input: seq<Byte>)
    requires index.owner != programId || post.owner != programId
    ensures Process(programId, index, post, input) == Outcome(Err(IncorrectProgramId), index.data, post.data)
  {
  }

  /** An index buffer that is not exactly one encoded counter stops the handler
      before any write. */
  lemma BadIndexChangesNothing(programId: Pubkey, index: Account, post: Account, input: seq<Byte>)
    requires index.owner == programId && post.owner == programId
    requires |index.data| != 4
    ensures var o := Process(programId, index, post, input);
      o.result.Err? && o.result.error.BorshIoError? && o.indexData == index.data && o.postData == post.data
  {
  }

  /** Instruction data that is not one encoded post fails the handler after the
      counter has already been written back; only the post buffer is untouched. */
  lemma BadInputAfterIndexWrite(programId: Pubkey, index: Account, post: Account, input: seq<Byte>)
    requires index.owner == programId && post.owner == programId
    requires |index.data| == 4 && CanIncrement(programId, index, post)
    requires AccountFromSlice(input).Err?
    ensures var o := Process(programId, index, post, input);
      o.result == Err(BorshIoError(AccountFromSlice(input).error)) && o.postData == post.data &&
      IndexFromSlice(o.indexData) == Ok(PostlyAccountIndex(IndexFromSlice(index.data).value.postN + 1))
  {
    var n := IndexFromSlice(index.data).value.postN;
    WriteAllExact(index.data, SerializeIndex(PostlyAccountIndex(n + 1)));
    IndexRoundTrip(PostlyAccountIndex(n + 1));
  }

  /** A post buffer shorter than the instruction's encoded post fails the handler
      with WriteZero, after the counter has been written back as n + 1 and as much
      of the encoding as fits has been copied. */
  lemma ShortPostBuffer(programId: Pubkey, index: Account, post: Account, input: seq<Byte>)
    requires index.owner == programId && post.owner == programId
    requires |index.data| == 4 && CanIncrement(programId, index, post)
    requires AccountFromSlice(input).Ok? && |post.data| < |input|
    ensures var o := Process(programId, index, post, input);
      o.result == Err(BorshIoError(WriteZero)) && o.postData == input[..|post.data|] &&
      IndexFromSlice(o.indexData) == Ok(PostlyAccountIndex(IndexFromSlice(index.data).value.postN + 1))
  {
    var o := Process(programId, index, post, input);
    var n := IndexFromSlice(index.data).value.postN;
    WriteAllExact(index.data, SerializeIndex(PostlyAccountIndex(n + 1)));
    IndexRoundTrip(PostlyAccountIndex(n + 1));
    assert o.postData == input[..|post.data|];
  }

  /** The handler succeeds exactly when both accounts belong to the program, the
      index buffer holds one encoded counter, the instruction data is one encoded
      post and the post buffer can hold it. Then the index buffer decodes to the
      old count plus one, the post buffer starts with the instruction data, and
      the bytes after it are unchanged. */
  lemma ProcessSucceeds(programId: Pubkey, index: Account, post: Account, input: seq<Byte>)
    requires CanIncrement(programId, index, post)
    ensures var o := Process(programId, index, post, input);
      o.result.Ok? <==>
        index.owner == programId && post.owner == programId && |index.data| == 4 &&
        AccountFromSlice(input).Ok? && |input| <= |post.data|
    ensures var o := Process(programId, index, post, input);
      o.result.Ok? ==>
        IndexFromSlice(o.indexData) == Ok(PostlyAccountIndex(IndexFromSlice(index.data).value.postN + 1)) &&
        o.postData[..|input|] == input && o.postData[|input|..] == post.data[|input|..] &&
        AccountFromSlice(o.postData[..|input|]) == AccountFromSlice(input)
  {
    var o := Process(programId, index, post, input);
    if index.owner == programId && post.owner == programId && |index.data| == 4 {
      var n := IndexFromSlice(index.data).value.postN;
      WriteAllExact(index.data, SerializeIndex(PostlyAccountIndex(n + 1)));
      IndexRoundTrip(PostlyAccountIndex(n + 1));
      if AccountFromSlice(input).Ok? && |input| <= |post.data| {
        assert o.postData[..|input|] == input;
      }
    }
  }

  /** `write_all` of `bytes` into the buffer `a`, one byte at a time. */
  method WriteInto(a: array<Byte>, bytes: seq<Byte>) returns (ok: bool)
    modifies a
    ensures ok == WriteAll(old(a[..]), bytes).ok
    ensures a[..] == WriteAll(old(a[..]), bytes).buf
  {
    var n := if |bytes| <= a.Length then |bytes| else a.Length;
    var i := 0;
    while i < n
      invariant 0 <= i <= n
      invariant forall k :: 0 <= k < i ==> a[k] == bytes[k]
      invariant forall k :: i <= k < a.Length ==> a[k] == old(a[k])
    {
      a[i] := bytes[i];
      i := i + 1;
    }
    ok := |bytes| <= a.Length;
  }

  /** `process_instruction`. The two accounts are distinct buffers; with fewer
      than two accounts it fails before reading anything, and otherwise it does
      to the two buffers exactly what `Process` says, and nothing else. */
  method ProcessInstruction(programId: Pubkey, accounts: seq<AccountInfo>, input: seq<Byte>)
    returns (r: Result<(), ProgramError>)
    requires |accounts| >= 2 ==> accounts[0].data != accounts[1].data
    requires |accounts| >= 2 ==>
      CanIncrement(programId, Account(accounts[0].owner, accounts[0].data[..]), Account(accounts[1].owner, accounts[1].data[..]))
    modifies if |accounts| >= 2 then {accounts[0].data, accounts[1].data} else {}
    ensures |accounts| < 2 ==> r == Err(NotEnoughAccountKeys)
    ensures |accounts| >= 2 ==>
      var o := Process(programId, Account(accounts[0].owner, old(accounts[0].data[..])),
                                  Account(accounts[1].owner, old(accounts[1].data[..])), input);
      r == o.result && accounts[0].data[..] == o.indexData && accounts[1].data[..] == o.postData
  {
    if |accounts| < 2 {
      return Err(NotEnoughAccountKeys);
    }
    var indexAccount, postAccount := accounts[0], accounts[1];
    if indexAccount.owner != programId || postAccount.owner != programId {
      return Err(IncorrectProgramId);
    }
    var decoded := IndexFromSlice(indexAccount.data[..]);
    if decoded.Err? {
      return Err(BorshIoError(decoded.error));
    }
    var index := decoded.value;
    index := PostlyAccountIndex(index.postN + 1);
    var ok := WriteInto(indexAccount.data, SerializeIndex(index));
    // The buffer decoded as exactly four bytes, so the four new ones fit.
    assert ok;
    var post := AccountFromSlice(input);
    if post.Err? {
      return Err(BorshIoError(post.error));
    }
    // A decoded post re-encodes to the instruction data, so it cannot overflow.
    var encoded := SerializeAccount(post.value).value;
    ok := WriteInto(postAccount.data, encoded);
    if !ok {
      return Err(BorshIoError(WriteZero));
    }
    r := Ok(());
  }
}
