/** The ledger the client talks to, reduced to what the client and the program
    rely on: a map from address to account, `get_account` as a map read, and
    `send_and_confirm_transaction` as an all-or-nothing run of the transaction's
    instructions. Two instructions exist: the system program's
    `create_account_with_seed`, and a call of the Postly program, which runs
    `Program.ProcessInstruction` on copies of the accounts it names. */
module Runtime {
  import opened Wrappers
  import opened Borsh
  import opened Util
  import opened Keys
  import opened Program

  type Accounts = map<Pubkey, Account>

  /** The largest data buffer the system program allocates (10 MiB). */
  const MAX_PERMITTED_DATA_LENGTH: nat := 10_485_760

  datatype Instruction =
    | CreateAccountWithSeed(from: Pubkey, to: Pubkey, base: Pubkey, seed: string, space: nat, owner: Pubkey)
    | Invoke(program: Pubkey, keys: seq<Pubkey>, data: seq<Byte>)

  type Transaction = seq<Instruction>

  datatype TxError =
    | SeedTooLong                 // the seed cannot derive an address
    | AddressWithSeedMismatch     // `to` is not the address derived from the seed
    | AccountAlreadyInUse         // `to` already exists
    | InvalidAccountDataLength    // `space` is above the allocation limit
    | ProgramNotFound             // no program is deployed at the called address
    | DuplicateAccount            // the program's two accounts are the same account
    | ArithmeticOverflow          // the program's counter increment overflowed
    | Failed(e: ProgramError)     // the program returned an error

  /** The account at `key`; an address nobody created reads as an empty account
      owned by the system program. */
  function Lookup(accts: Accounts, key: Pubkey): Account
  {
    if key in accts then accts[key] else Account(SYSTEM_PROGRAM_ID, [])
  }

  /** Zero-filled data of `n` bytes, what a new account holds. */
  function Zeros(n: nat): (z: seq<Byte>)
    ensures |z| == n && forall i :: 0 <= i < n ==> z[i] == 0
  {
    seq(n, _ => 0)
  }

  /** `create_account_with_seed`: allocates a zero-filled account owned by `owner`
      at the address derived from (base, seed, owner), if that is `to` and it is free. */
  function CreateStep(hash: Hasher, accts: Accounts, to: Pubkey, base: Pubkey, seed: string, space: nat, owner: Pubkey)
    : (r: Result<Accounts, TxError>)
    ensures r.Ok? <==>
      |seed| <= MAX_SEED_LEN && hash(base, seed, owner) == to && to !in accts && space <= MAX_PERMITTED_DATA_LENGTH
    ensures r.Ok? ==> r.value == accts[to := Account(owner, Zeros(space))]
  {
    match CreateWithSeed(hash, base, seed, owner)
    case Err(_) => Err(SeedTooLong)
    case Ok(addr) =>
      if addr != to then Err(AddressWithSeedMismatch)
      else if to in accts then Err(AccountAlreadyInUse)
      else if space > MAX_PERMITTED_DATA_LENGTH then Err(InvalidAccountDataLength)
      else Ok(accts[to := Account(owner, Zeros(space))])
  }

  /** A call of the Postly program deployed at `deployed`: the handler's outcome
      on the first two named accounts, written back only if it succeeded. */
  function InvokeStep(deployed: Pubkey, accts: Accounts, program: Pubkey, keys: seq<Pubkey>, data: seq<Byte>)
    : (r: Result<Accounts, TxError>)
    ensures r.Ok? ==> program == deployed && |keys| >= 2 && keys[0] != keys[1]
    ensures r.Ok? ==> r.value.Keys == accts.Keys + {keys[0], keys[1]}
    ensures r.Ok? ==> forall k :: k in accts && k != keys[0] && k != keys[1] ==> r.value[k] == accts[k]
  {
    if program != deployed then Err(ProgramNotFound)
    else if |keys| < 2 then Err(Failed(NotEnoughAccountKeys))
    else if keys[0] == keys[1] then Err(DuplicateAccount)
    else
      var index := Lookup(accts, keys[0]);
      var post := Lookup(accts, keys[1]);
      if !CanIncrement(program, index, post) then Err(ArithmeticOverflow)
      else
        var o := Process(program, index, post, data);
        match o.result
        case Err(e) => Err(Failed(e))
        case Ok(_) => Ok(accts[keys[0] := Account(index.owner, o.indexData)][keys[1] := Account(post.owner, o.postData)])
  }

  function Step(hash: Hasher, deployed: Pubkey, accts: Accounts, ins: Instruction): Result<Accounts, TxError>
  {
    match ins
    case CreateAccountWithSeed(_, to, base, seed, space, owner) => CreateStep(hash, accts, to, base, seed, space, owner)
    case Invoke(program, keys, data) => InvokeStep(deployed, accts, program, keys, data)
  }

  /** The instructions of one transaction in order; the first failure fails the
      whole transaction. */
  function Execute(hash: Hasher, deployed: Pubkey, accts: Accounts, tx: Transaction): Result<Accounts, TxError>
    decreases |tx|
  {
    if tx == [] then Ok(accts)
    else
      match Step(hash, deployed, accts, tx[0])
      case Err(e) => Err(e)
      case Ok(next) => Execute(hash, deployed, next, tx[1..])
  }

  /** Runs a call of the program the way the runtime does: one `AccountInfo` with
      a fresh data buffer per named account, the handler on them, and the
      buffers of the first two read back. */
  method RunInvoke(deployed: Pubkey, accts: Accounts, program: Pubkey, keys: seq<Pubkey>, data: seq<Byte>)
    returns (r: Result<Accounts, TxError>)
    ensures r == InvokeStep(deployed, accts, program, keys, data)
  {
    if program != deployed {
      return Err(ProgramNotFound);
    }
    if |keys| >= 2 && keys[0] == keys[1] {
      return Err(DuplicateAccount);
    }
    if |keys| >= 2 && !CanIncrement(program, Lookup(accts, keys[0]), Lookup(accts, keys[1])) {
      return Err(ArithmeticOverflow);
    }
    var infos: seq<AccountInfo> := [];
    var i := 0;
    while i < |keys|
      invariant 0 <= i <= |keys| && |infos| == i
      invariant forall j :: 0 <= j < i ==>
        fresh(infos[j].data) && infos[j].owner == Lookup(accts, keys[j]).owner && infos[j].data[..] == Lookup(accts, keys[j]).data
      invariant forall j, l :: 0 <= j < l < i ==> infos[j].data != infos[l].data
    {
      var account := Lookup(accts, keys[i]);
      var info := new AccountInfo(keys[i], account.owner, account.data);
      infos := infos + [info];
      i := i + 1;
    }
    var result := ProcessInstruction(program, infos, data);
    if result.Err? {
      return Err(Failed(result.error));
    }
    r := Ok(accts[keys[0] := Account(infos[0].owner, infos[0].data[..])][keys[1] := Account(infos[1].owner, infos[1].data[..])]);
  }

  class Ledger {
    /** The hash behind address derivation. */
    const hash: Hasher
    /** Where the Postly program is deployed. */
    const deployed: Pubkey
    var accounts: Accounts
    /** Every transaction submitted so far, in order. */
    var sent: seq<Transaction>

    constructor (hash: Hasher, deployed: Pubkey, accounts: Accounts)
      ensures this.hash == hash && this.deployed == deployed && this.accounts == accounts && sent == []
    {
      this.hash := hash;
      this.deployed := deployed;
      this.accounts := accounts;
      sent := [];
    }

    /** `get_account`: fails when no account exists at `key`. */
    method GetAccount(key: Pubkey) returns (r: Option<Account>)
      ensures r.Some? <==> key in accounts
      ensures r.Some? ==> r.value == accounts[key]
    {
      r := if key in accounts then Some(accounts[key]) else None;
    }

    /** `send_and_confirm_transaction`: the transaction is recorded as sent, and
      either all its instructions take effect or none does. */
    method SendAndConfirm(tx: Transaction) returns (r: Result<(), TxError>)
      modifies this
      ensures sent == old(sent) + [tx]
      ensures Execute(hash, deployed, old(accounts), tx).Ok? ==>
        r == Ok(()) && accounts == Execute(hash, deployed, old(accounts), tx).value
      ensures Execute(hash, deployed, old(accounts), tx).Err? ==>
        r == Err(Execute(hash, deployed, old(accounts), tx).error) && accounts == old(accounts)
    {
      sent := sent + [tx];
      var work := accounts;
      var i := 0;
      while i < |tx|
        invariant 0 <= i <= |tx|
        invariant accounts == old(accounts) && sent == old(sent) + [tx]
        invariant Execute(hash, deployed, accounts, tx) == Execute(hash, deployed, work, tx[i..])
      {
        assert tx[i..][0] == tx[i] && tx[i..][1..] == tx[i + 1..];
        var step: Result<Accounts, TxError>;
        match tx[i] {
          case CreateAccountWithSeed(_, to, base, seed, space, owner) =>
            step := CreateStep(hash, work, to, base, seed, space, owner);
          case Invoke(program, keys, data) =>
            step := RunInvoke(deployed, work, program, keys, data);
        }
        if step.Err? {
          return Err(step.error);
        }
        work := step.value;
        i := i + 1;
      }
      accounts := work;
      r := Ok(());
    }
  }
}
