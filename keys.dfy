/** Account addresses and their derivation from a seed. The hash behind
    `Pubkey::create_with_seed` is a parameter: a deterministic function about
    which nothing else is assumed. */
module Keys {
  import opened Wrappers
  import opened Borsh

  datatype Pubkey = Pubkey(bytes: seq<Byte>)

  /** The owner of every account that no program has claimed. */
  const SYSTEM_PROGRAM_ID: Pubkey :=
    Pubkey([0, 0, 0, 0, 0, 0, 0, 0, 0, 0, 0, 0, 0, 0, 0, 0, 0, 0, 0, 0, 0, 0, 0, 0, 0, 0, 0, 0, 0, 0, 0, 0])

  /** The longest seed the ledger accepts, in bytes. */
  const MAX_SEED_LEN: nat := 32

  /** hash(base, seed, owner): the address derived from a base key, a seed and an owner program. */
  type Hasher = (Pubkey, string, Pubkey) -> Pubkey

  datatype PubkeyError = MaxSeedLengthExceeded

  /** `Pubkey::create_with_seed`: fails exactly when the seed is too long, and is
      otherwise the hash of its three inputs. Seeds here are ASCII, so a
      character is a byte. Its other failure, IllegalOwner for an owner whose
      last 21 bytes are "ProgramDerivedAddress", is not part of this model:
      program ids are taken not to end with that marker. */
  function CreateWithSeed(hash: Hasher, base: Pubkey, seed: string, owner: Pubkey): (r: Result<Pubkey, PubkeyError>)
    ensures r.Ok? <==> |seed| <= MAX_SEED_LEN
    ensures r.Ok? ==> r.value == hash(base, seed, owner)
  {
    if |seed| > MAX_SEED_LEN then Err(MaxSeedLengthExceeded) else Ok(hash(base, seed, owner))
  }
}
