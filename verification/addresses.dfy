/** Account addresses and program-derived addresses (PDAs).

    A real PDA is a hash of seeds, a bump byte and the program id that falls
    off the ed25519 curve. Here derivation is a datatype constructor, which
    makes it injective by construction, and keeps derived addresses disjoint
    from key-pair addresses: no private key exists for a PDA, so a PDA can
    only sign through the program that owns it. The program id is implicit:
    the only derived addresses the model builds are this program's. An
    address some other program derived (an associated token account, say)
    appears as a plain `Wallet` key.

    Injectivity is an assumption about the hash. Real derivation hashes the
    concatenated seed bytes, so `["ab", "c"]` and `["a", "bc"]` would
    coincide; the seed lists this program uses have a fixed layout (a
    literal tag, then 32-byte keys, then one bump byte), so on them
    byte-level concatenation is injective as well. */
module Addresses {

  type u8 = x: int | 0 <= x < 0x100
  const U64_MAX: int := 0xFFFF_FFFF_FFFF_FFFF
  type u64 = x: int | 0 <= x <= U64_MAX

  /** One element of a seed list: a literal byte string, the 32 bytes of a key,
      or a single bump byte. */
  datatype Seed = Literal(bytes: string) | KeySeed(key: Pubkey) | BumpSeed(bump: u8)

  /** An address: one owned by a key pair, or one derived from seeds. */
  datatype Pubkey = Wallet(id: nat) | ProgramAddress(seeds: seq<Seed>)

  /** The runtime's canonical bump search (`find_program_address`): which bump
      makes the seeds leave the curve. Hashing is not modelled, so the search
      is a parameter of every instruction that relies on it. */
  type BumpSearch = seq<Seed> -> u8

  /** `create_program_address`: the address of an explicit seed list. */
  function CreateProgramAddress(seeds: seq<Seed>): (k: Pubkey)
    ensures !k.Wallet?
  {
    ProgramAddress(seeds)
  }

  /** Derivation is injective: distinct seed lists never share an address. */
  lemma DeriveInjective(s1: seq<Seed>, s2: seq<Seed>)
    ensures CreateProgramAddress(s1) == CreateProgramAddress(s2) <==> s1 == s2
  {
  }

  /** `find_program_address`: the canonical address of the seeds and its bump;
      the address re-derives from the seeds followed by that bump. */
  function FindProgramAddress(seeds: seq<Seed>, search: BumpSearch): (r: (Pubkey, u8))
    ensures r.0 == CreateProgramAddress(seeds + [BumpSeed(r.1)])
    ensures r.1 == search(seeds)
  {
    var bump := search(seeds);
    (CreateProgramAddress(seeds + [BumpSeed(bump)]), bump)
  }

  /** Two explicit seed lists that differ only in their last bump byte name
      different addresses. */
  lemma BumpDetermines(seeds: seq<Seed>, b1: u8, b2: u8)
    ensures CreateProgramAddress(seeds + [BumpSeed(b1)]) == CreateProgramAddress(seeds + [BumpSeed(b2)])
            <==> b1 == b2
  {
    if b1 != b2 {
      assert (seeds + [BumpSeed(b1)])[|seeds|] != (seeds + [BumpSeed(b2)])[|seeds|];
    }
  }

  /** The key-pair signers of a transaction: a derived address has no private
      key, so whatever the submitter claims, only wallets sign. */
  function WalletSigners(signers: set<Pubkey>): (w: set<Pubkey>)
    ensures forall k :: k in w <==> k in signers && k.Wallet?
  {
    set k | k in signers && k.Wallet?
  }
}
