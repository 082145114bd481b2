# Postly, modelled in Dafny

Postly is a small Solana application for one user's list of text posts.
Each post lives in its own account on the ledger. A per-user index account
counts the posts. Every address is derived from the user's key, a fixed seed
and the program's id. The index uses the seed `postly_index`; post `n` uses
`postly_account_n`. Post `n` can therefore be found from its position alone.

The model has three layers:

- `util` holds the two records: `PostlyAccountIndex { post_n: u32 }` and
  `PostlyAccount { post: String }`. It also holds their Borsh encoding and the
  client's error type. See `util.dfy`, which builds on `borsh.dfy` and `utf8.dfy`.
- `program` is the on-chain handler. It checks that both accounts belong to
  the program, decodes the counter and writes back the counter plus one. Then
  it decodes the post from the instruction data and writes it into the post
  account. Both writes happen in place in the accounts' fixed-size data
  buffers. See `program.dfy`: the buffers are `array`s and the handler is a
  method over them.
- `client` holds the two commands. `post` creates the index on first use, then
  sends one transaction that creates the account for post `n` and calls the
  program. `view` reads the counter, then reads and decodes posts
  `0..post_n-1` in order. See `client.dfy`.

The client talks to a ledger, modelled in `runtime.dfy` as a class. It holds
a map from address to account. `get_account` reads that map.
`send_and_confirm_transaction` runs a transaction's instructions in order,
all or nothing. A call of the program inside a transaction runs the handler
method on fresh `AccountInfo` buffers. The hash behind `create_with_seed`
is a parameter: any deterministic function from (base, seed, owner) to an
address. Nothing else about it is assumed.

The main results:

- Both records round-trip through their encodings.
- The handler's effect is stated for every outcome, including which writes
  have already happened when it fails.
- The seed of post `n` always fits the ledger's 32-byte limit, and distinct
  ids give distinct seeds.
- `Client.PostStep` and `Client.PostSucceeded` together say when one `post`
  succeeds and exactly what it changes.
- `Client.EndToEnd`: after posting `c0 … ck-1` on a ledger where these
  addresses were free, `view` succeeds and prints `k` lines in order, and line `i` is
  `(i, ci)`.
- `Client.SuccessfulPostsView`: the same conclusion for any `k` posts that
  succeeded, starting with no index, with no assumption about the addresses.

The client has two errors. AccountError covers a missing or undecodable
index, a failed index creation and a post that cannot be encoded. PostError
covers a post account that is missing or does not decode, and a failed post
transaction. `post` returns `()`, not the new post's id.

## Model

| member | source | states |
|---|---|---|
| Util.Display | util/src/lib.rs:12-19 | PostError renders as "Post Error" and AccountError as "Account Error", in both directions |
| Util.DisplayInjective | util/src/lib.rs:12-19 | distinct errors render as distinct messages |
| Borsh.EncodeU32 | util/src/lib.rs:21-24 | the counter's encoding is four bytes whose little-endian value is the counter |
| Borsh.DecodeU32 | util/src/lib.rs:21-24 | every four bytes decode to the one `u32` that encodes back to them |
| Borsh.ReadU32 | util/src/lib.rs:21-24 | reading a `u32` succeeds exactly when four bytes remain; the input is then the encoding followed by the rest; otherwise UnexpectedLengthOfInput |
| Util.SerializeIndex | util/src/lib.rs:21-24 | the index encodes as four bytes whose little-endian value is `post_n` |
| Util.DeserializeIndex | util/src/lib.rs:21-24 | decoding an index from a cursor succeeds exactly on four or more bytes; the input is the encoding followed by the rest |
| Util.IndexFromSlice | util/src/lib.rs:21-24 | whole-slice decoding of the index succeeds exactly on 4-byte input, which is then the encoding of the result; shorter input is UnexpectedLengthOfInput and longer input is NotAllBytesRead |
| Util.IndexRoundTrip | util/src/lib.rs:21-24 | decoding the encoding of an index gives it back |
| Util.IndexEncodingInjective | util/src/lib.rs:21-24 | distinct indexes have distinct encodings |
| Util.ZeroIndex | client/src/main.rs:63-65 | the encoding of a zero count is four zero bytes, which a new account holds |
| Util.EncodeString | util/src/lib.rs:26-29 | a string encodes as its byte length as a `u32` followed by its bytes; it fails with LengthOverflow exactly when the length exceeds `u32::MAX` |
| Util.ReadString | util/src/lib.rs:26-29 | reading a string succeeds exactly when the length prefix fits in the input and the bytes it covers are UTF-8; the input is then the encoding followed by the rest; a short input is UnexpectedLengthOfInput |
| Util.SerializeAccount | util/src/lib.rs:26-29 | a post encodes as a 4-byte length prefix equal to its byte length, followed by the post; this succeeds exactly when the length fits in a `u32` |
| Util.DeserializeAccount | util/src/lib.rs:26-29 | decoding a post from a cursor succeeds exactly when reading a string does; the input is the post's encoding followed by the rest |
| Util.AccountFromSlice | util/src/lib.rs:26-29 | whole-slice decoding of a post succeeds exactly when the prefix equals the number of remaining bytes and those bytes are UTF-8; the input is then the encoding of the result |
| Util.AccountTrailingBytes | util/src/lib.rs:26-29 | a length prefix shorter than the bytes after it gives NotAllBytesRead |
| Util.AccountRoundTrip | util/src/lib.rs:26-29 | decoding the encoding of a post gives it back |
| Util.AccountEncodingInjective | util/src/lib.rs:26-29 | distinct posts have distinct encodings |
| Utf8.Valid | util/src/lib.rs:26-29 | the UTF-8 check on a decoded `String`: valid text never starts with a continuation byte, and the bytes C0, C1 and F5..FF never occur in it |
| Utf8.AsciiValid | util/src/lib.rs:26-29 | ASCII bytes are valid UTF-8 |
| Keys.CreateWithSeed | client/src/main.rs:19-21 | address derivation fails exactly when the seed is longer than 32 bytes; otherwise the address is the hash of base, seed and owner (the IllegalOwner check on the owner is left out) |
| Borsh.WriteAll | program/src/lib.rs:31 | writing into a fixed-size slice keeps its length; it copies the prefix that fits and leaves the other bytes alone; it reports success exactly when everything fits |
| Borsh.WriteAllExact | program/src/lib.rs:31 | writing into a slice of exactly the encoding's length leaves the encoding and succeeds |
| Program.AccountInfo.constructor | program/src/lib.rs:17 | an account's data buffer is a fresh array that holds the given bytes |
| Program.Process | program/src/lib.rs:15-38 | the handler never changes the length of either data buffer |
| Program.WrongOwnerChangesNothing | program/src/lib.rs:24-27 | an account not owned by the program gives IncorrectProgramId, and both buffers are unchanged |
| Program.BadIndexChangesNothing | program/src/lib.rs:29 | an index buffer other than four bytes gives a Borsh error before any write |
| Program.BadInputAfterIndexWrite | program/src/lib.rs:29-33 | instruction data that is not one encoded post fails after the counter has already been written back as n + 1; the post buffer is unchanged |
| Program.ShortPostBuffer | program/src/lib.rs:34 | a post buffer shorter than the encoded post gives WriteZero, the counter has already been written back as n + 1, and the post buffer holds the prefix of the encoding that fits |
| Program.ProcessSucceeds | program/src/lib.rs:15-38 | the handler succeeds exactly when both accounts are the program's, the index is four bytes, the data is one encoded post and the post buffer can hold it; then the index decodes to the old count + 1, the post buffer starts with the instruction data, and the bytes after it are unchanged |
| Program.WriteInto | program/src/lib.rs:31 | the in-place slice write, byte by byte, leaves the array holding exactly what `WriteAll` specifies, with the same success flag |
| Program.ProcessInstruction | program/src/lib.rs:15-38 | with fewer than two accounts it gives NotEnoughAccountKeys; otherwise its result and the two buffers afterwards are exactly `Process` on the buffers' old contents |
| Runtime.Zeros | client/src/main.rs:70-78 | a newly allocated account's data is all zero bytes of the requested length |
| Runtime.CreateStep | client/src/main.rs:70-78 | `create_account_with_seed` succeeds exactly when the seed fits, the target is the derived address, that address is unused and the size is allowed; the target is then a zero-filled account owned by the given program |
| Runtime.InvokeStep | client/src/main.rs:119-126 | a successful call of the program names two distinct accounts; it changes only those two entries of the ledger and adds at most those two |
| Runtime.RunInvoke | client/src/main.rs:119-126 | running the handler method on fresh buffers gives exactly `InvokeStep` |
| Runtime.Ledger.constructor | client/src/main.rs:153 | the ledger starts with the given accounts and no transactions sent |
| Runtime.Ledger.GetAccount | client/src/main.rs:23-25 | `get_account` succeeds exactly when an account exists at the address, and returns it |
| Runtime.Ledger.SendAndConfirm | client/src/main.rs:137-139 | the transaction is recorded; if every instruction succeeds in order the ledger becomes their combined effect, and otherwise it is unchanged and the first error is returned |
| Client.DecimalRoundTrip | client/src/main.rs:31 | reading the decimal rendering of an id gives the id back |
| Client.DecimalInjective | client/src/main.rs:31 | distinct ids render differently |
| Client.DecimalLength | client/src/main.rs:31 | a number below 10^k renders in at most k digits |
| Client.Decimal | client/src/main.rs:31 | an id renders as a non-empty string of decimal digits with no leading zero |
| Client.PostSeed | client/src/main.rs:103 | the seed of post `id` is "postly_account_" followed by the decimal rendering of `id`, and at most 25 bytes for a `u32` id |
| Client.PostSeedFits | client/src/main.rs:103-105 | every seed `postly_account_{id}` with a `u32` id is at most 25 bytes, within the 32-byte limit |
| Client.PostSeedInjective | client/src/main.rs:103 | distinct ids give distinct post seeds |
| Client.PostSeedNotIndexSeed | client/src/main.rs:15-16 | no post seed equals the index seed |
| Client.IndexAddress | client/src/main.rs:52-54 | deriving the index address passes the seed-length check, so it cannot fail for a program id without the IllegalOwner marker |
| Client.PostAddress | client/src/main.rs:103-105 | deriving the address of post `id` passes the seed-length check, so for a program id without the IllegalOwner marker the `unwrap` never panics |
| Client.ReadPost | client/src/main.rs:36-40 | a missing or undecodable post account gives PostError |
| Client.ReadPostOk | client/src/main.rs:36-40 | post `id` reads exactly when its account exists and decodes, and then it is the decoded post |
| Client.ViewPosts | client/src/main.rs:30-42 | a successful loop gives one line per id |
| Client.ViewPostsOk | client/src/main.rs:30-42 | if the loop succeeds, every post 0..n-1 was read, and line i is id i with post i |
| Client.ViewPostsAllRead | client/src/main.rs:30-42 | if every post 0..n-1 reads, the loop succeeds |
| Client.ViewPostsFirstError | client/src/main.rs:30-42 | a failing loop fails with the error of the first post that does not read, and every earlier post read |
| Client.ViewPostsStops | client/src/main.rs:30-42 | after the loop has failed, later ids do not change the outcome |
| Client.ViewSpec | client/src/main.rs:18-44 | a missing or undecodable index gives AccountError; a successful view has exactly `post_n` lines |
| Client.PrintedPosts | client/src/main.rs:30-42 | the loop over ids 0..n-1 prints at most one line per id |
| Client.PrintedPostsView | client/src/main.rs:30-42 | what the loop has printed is its result when it succeeds; when it fails, it is every post before the first one that does not read, whose error is the loop's error; line j is post j |
| Client.PrintedPostsStops | client/src/main.rs:30-42 | after a post has failed to read, later ids print nothing more |
| Client.ViewPrinted | client/src/main.rs:18-44 | `view` prints nothing when the index is missing or does not decode, every line when it succeeds, and on a PostError exactly the posts before the one that failed; line j is post j |
| Client.View | client/src/main.rs:18-44 | `view` over the ledger returns exactly `ViewSpec`, prints exactly `ViewPrinted`, and changes nothing |
| Client.PrintPosts | client/src/main.rs:30-42 | the loop returns exactly `ViewPosts` and prints exactly `PrintedPosts` |
| Client.FetchPost | client/src/main.rs:31-40 | one turn of the loop returns exactly `ReadPost` |
| Client.ViewBeforeFirstPost | client/src/main.rs:23-25 | with no index account, `view` fails with AccountError instead of returning an empty list |
| Client.IndexCreation | client/src/main.rs:63-78 | the index creation is one instruction that allocates, at the index address and owned by the program, the four bytes of an encoded counter |
| Client.IndexCreationEffect | client/src/main.rs:63-90 | creating the index succeeds exactly when its address is free (otherwise AccountAlreadyInUse), and leaves a program-owned account holding the encoding of 0 |
| Client.ProvideIndex | client/src/main.rs:52-94 | the first half of `post` sends a transaction exactly when the index is missing; a failure is AccountError and leaves the ledger unchanged; on success the index account decodes to the counter `post` proceeds with, and a created index holds 0 |
| Client.EnsureIndex | client/src/main.rs:52-94 | the first half of `post` leaves the result, ledger and sent transactions that `ProvideIndex` specifies |
| Client.PostTransaction | client/src/main.rs:110-128 | the post transaction first creates the post account, sized for exactly the instruction data, then calls the program on (index, post account) with that data |
| Client.PostSpec | client/src/main.rs:46-142 | `post` sends at most one transaction after the index step's; a failure leaves the ledger as the index step left it; a success needed an index and sent exactly one more transaction |
| Client.Post | client/src/main.rs:46-142 | `post` leaves the result, ledger and sent transactions that `PostSpec` specifies |
| Client.PostCorruptIndex | client/src/main.rs:57-59 | an undecodable index gives AccountError; nothing is sent and the ledger is unchanged |
| Client.PostCreatesIndex | client/src/main.rs:60-93 | without an index, `post` first sends one creation of a 4-byte, program-owned account at the index address; if that fails, the result is AccountError and the ledger is unchanged |
| Client.PostSends | client/src/main.rs:97-139 | with the count at n, `post` sends one transaction: create the account of post n, sized for the encoded post, then call the program on (index, post n) with the encoded post; `post` succeeds exactly when that transaction does, the ledger is then its effect, and a failure is PostError |
| Client.ExecuteOne | client/src/main.rs:128-139 | a one-instruction transaction has that instruction's effect |
| Client.IndexReady | client/src/main.rs:57-94 | if the index holds n, `post` proceeds with n; if there is no index, `post` creates one holding the encoding of 0 and proceeds with 0 |
| Client.InvokeAppends | program/src/lib.rs:29-34 | the call on an index holding n and a fresh zero-filled post account sets the counter to n + 1 and puts the encoded post in the post account |
| Client.TransactionAppends | client/src/main.rs:110-128 | the post transaction changes the ledger in exactly two entries: the counter becomes n + 1 and post n holds the encoded post |
| Client.PostStep | client/src/main.rs:46-142 | one `post` succeeds when the counter holds n (or is absent and n = 0) and post n's address is free; the ledger then changes in exactly two entries: the counter becomes n + 1 and post n holds the encoded content |
| Client.ProcessWrites | program/src/lib.rs:29-34 | after a successful handler run the index buffer holds the old count + 1 and the post buffer starts with the instruction data, its other bytes unchanged |
| Client.InvokeRan | client/src/main.rs:119-126 | a successful program call ran the handler on two distinct accounts, the handler succeeded, and its buffers were written back |
| Client.InvokeSucceeded | client/src/main.rs:119-126 | a successful program call found both accounts owned by the program, a 4-byte counter below `u32::MAX` and an encoded post that fits; the counter becomes n + 1 and the post account starts with the data |
| Client.TransactionSucceeded | client/src/main.rs:110-139 | a successful post transaction found the program deployed, the post address free and apart from the index, and a program-owned index holding n below `u32::MAX`; the ledger then has n + 1 in the index and exactly the data in the post account |
| Client.PostReached | client/src/main.rs:97-139 | a successful `post` got a counter and an encoding, and its post transaction succeeded with the ledger `post` ends with |
| Client.IndexHistory | client/src/main.rs:57-94 | when the index step succeeded, the index was already there holding the counter, or missing with the counter at 0 |
| Client.PostSucceeded | client/src/main.rs:46-142 | the converse of `PostStep`: on any ledger, a successful `post` found the program deployed, counter n below `u32::MAX` (or no index and n = 0) and post n's address free; afterwards the counter holds n + 1, post n holds the encoded content, and nothing else changed |
| Client.PostedReady | client/src/main.rs:57-105 | with n posts recorded on free addresses, the counter holds n (or is missing when n = 0) and post n's address is free |
| Client.PostedExtend | client/src/main.rs:46-142 | writing counter n + 1 and post n into a ledger holding n posts gives a ledger holding n + 1 posts, and no earlier account changes |
| Client.PostedStep | client/src/main.rs:46-142 | one more post succeeds and extends the record of what was posted |
| Client.PostAllState | client/src/main.rs:46-142 | posting c0 … ck-1 in turn on free addresses succeeds; the counter then holds k, post i holds ci, later post addresses are still free, and no pre-existing account changes |
| Client.EndToEnd | client/src/main.rs:18-142 | after posting c0 … ck-1 (k ≥ 1) on free addresses, the model's `view` value is k lines in order, and line i is (i, ci) |
| Client.HoldsKept | client/src/main.rs:110-128 | writing another address keeps a recorded post where it is |
| Client.RecordedCount | client/src/main.rs:57-94 | on a ledger that records k posts, the counter `post` finds is k |
| Client.RecordedExtend | client/src/main.rs:46-142 | writing counter n + 1 and post n, at a free address apart from the index, into a ledger that records n posts records n + 1 posts |
| Client.RecordedStep | client/src/main.rs:46-142 | a successful `post` on a ledger that records c0 … ck-1 records c0 … ck |
| Client.SuccessfulPostsRecorded | client/src/main.rs:46-142 | successful posts of c0 … ck-1 from no index leave the counter at k and post i holding ci; at most `u32::MAX` posts succeed |
| Client.SuccessfulPostsView | client/src/main.rs:18-142 | after k successful posts from no index, with no assumption about the addresses, the model's `view` value is k lines in order with line i equal to (i, ci), or AccountError when k = 0 |

## Left out

- RPC plumbing is left out: the URL, commitment level, recent blockhash, signing, fee payer and airdrop (client/src/main.rs:144-172). The CLI dispatch in `main` is also left out. `post` and `view` are modelled as the commands it calls.
- Rent and lamports are not modelled. The rent query and the funding of new accounts are left out, and so is any failure due to an unfunded payer (client/src/main.rs:160-161). The ledger has no error for it.
- Client.PostStep, Client.PostedStep, Client.PostAllState, Client.EndToEnd: their success conclusions assume that the payer is funded, since the ledger has no funding check. `Client.PostSucceeded` and `Client.SuccessfulPostsView` start from posts that succeeded and need no such assumption.
- The lines `view` prints are modelled as `Line(id, post)` values in `printed`, which holds everything printed before a failing post too. The source's `view` returns `()`; in the model the `Ok` value of `View` and `ViewSpec` is the list of lines printed, and `Client.ViewPrinted` ties the two together. The format string is not modelled. The other `println!` calls and the handler's `msg!` log are left out.
- The hash behind `create_with_seed` is a parameter. `Client.EndToEnd` therefore assumes that the addresses it uses are distinct and free (`Unclaimed`). The seeds themselves are proved distinct: `PostSeedInjective` and `PostSeedNotIndexSeed`. `Client.SuccessfulPostsView` needs no such assumption.
- Keys.CreateWithSeed, Client.IndexAddress, Client.PostAddress: `Pubkey::create_with_seed` also fails with IllegalOwner when the owner key's last 21 bytes are the marker "ProgramDerivedAddress". The model leaves that check out and assumes the program id does not end with the marker. For such an id, the AccountError branches at client/src/main.rs:21, 34 and 54 and the `unwrap` at client/src/main.rs:105 would be reachable.
- Signer checks are not modelled. Writable flags are not modelled either.
- `get_account` errors other than absence (network failures) are not modelled. In `post`, any such error leads to index creation. The model creates the index only when the account is absent.
- Program.Process: the handler requires the counter to be below `u32::MAX` (`CanIncrement`). Whether `post_n += 1` wraps or panics depends on build settings. The ledger model refuses such a call with ArithmeticOverflow.
- Runtime.InvokeStep: a call that names the same account twice is refused with DuplicateAccount. The handler is not modelled for aliased buffers.
- RefCell borrow failures (`try_borrow_data`, `borrow_mut`) cannot happen with two distinct buffers, and they are not modelled.
- Transaction size limits and compute budgets are not modelled. Concurrent clients of the same ledger are not modelled either.
- Strings are byte sequences that satisfy the UTF-8 well-formedness rule of Table 3-7 of the Unicode Standard. Seeds are ASCII, so a character is a byte.
