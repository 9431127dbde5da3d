/** Finding which built-in extractors a digest stands for, by trying every subset. */
module Extractors {
  import opened Prelude

  datatype Extractor = Extractor(id: string, version: string, contractVersion: nat)

  /** A digest of a set of extractors, taken as injective, or any other digest. */
  datatype Digest = SetDigest(extractors: set<Extractor>) | OtherDigest(value: string)

  datatype Selection = Selection(fileIds: set<string>, genericEnabled: bool, resolverEnabled: bool)

  const GENERIC := "builtin.generic-structure"
  const RESOLVER := "builtin.rust-cargo-resolver"
  const USIZE_BITS: nat := 64

  function Elements(s: seq<Extractor>): set<Extractor> { set x | x in s }

  function FileIds(chosen: set<Extractor>): set<string> { set e | e in chosen && e.id != RESOLVER :: e.id }

  function Pow2(n: nat): (p: nat)
    ensures p > 0
  {
    if n == 0 then 1 else 2 * Pow2(n - 1)
  }

  predicate Bit(mask: nat, i: nat) { if i == 0 then mask % 2 == 1 else Bit(mask / 2, i - 1) }

  /** The extractors whose bit is set. */
  function Chosen(builtins: seq<Extractor>, mask: nat): seq<Extractor>
  {
    if builtins == [] then [] else (if mask % 2 == 1 then [builtins[0]] else []) + Chosen(builtins[1..], mask / 2)
  }

  lemma {:induction false} ChosenAppend(builtins: seq<Extractor>, x: Extractor, mask: nat)
    ensures Chosen(builtins + [x], mask) == Chosen(builtins, mask) + (if Bit(mask, |builtins|) then [x] else [])
  {
    if builtins == [] {
      assert builtins + [x] == [x] && Chosen([], mask / 2) == [];
    } else {
      assert (builtins + [x])[1..] == builtins[1..] + [x];
      ChosenAppend(builtins[1..], x, mask / 2);
      Associative(if mask % 2 == 1 then [builtins[0]] else [], Chosen(builtins[1..], mask / 2),
                  if Bit(mask, |builtins|) then [x] else []);
    }
  }

  lemma Associative(a: seq<Extractor>, b: seq<Extractor>, c: seq<Extractor>)
    ensures a + (b + c) == a + b + c
  {
  }

  lemma {:induction false} ChosenAreBuiltin(builtins: seq<Extractor>, mask: nat)
    ensures forall x :: x in Chosen(builtins, mask) ==> x in builtins
  {
    if builtins != [] { ChosenAreBuiltin(builtins[1..], mask / 2); }
  }

  /** A mask below `2^n` with some bit set chooses something. */
  lemma {:induction false} ChosenNonEmpty(builtins: seq<Extractor>, mask: nat)
    requires 1 <= mask < Pow2(|builtins|)
    ensures Chosen(builtins, mask) != []
  {
    if builtins != [] && mask % 2 == 0 { ChosenNonEmpty(builtins[1..], mask / 2); }
  }

  /** The mask that chooses a given subset. */
  function MaskOf(builtins: seq<Extractor>, chosen: set<Extractor>): nat
  {
    if builtins == [] then 0 else (if builtins[0] in chosen then 1 else 0) + 2 * MaskOf(builtins[1..], chosen)
  }

  lemma {:induction false} MaskChooses(builtins: seq<Extractor>, chosen: set<Extractor>)
    ensures MaskOf(builtins, chosen) < Pow2(|builtins|)
    ensures forall x :: x in Chosen(builtins, MaskOf(builtins, chosen)) <==> x in builtins && x in chosen
    ensures (exists x :: x in builtins && x in chosen) ==> MaskOf(builtins, chosen) > 0
  {
    if builtins != [] {
      MaskChooses(builtins[1..], chosen);
      assert builtins == [builtins[0]] + builtins[1..];
      assert MaskOf(builtins, chosen) / 2 == MaskOf(builtins[1..], chosen);
    }
  }

  /** One subset, gathered by testing every bit of the mask. */
  method Gather(builtins: seq<Extractor>, mask: nat) returns (identities: seq<Extractor>)
    ensures identities == Chosen(builtins, mask)
  {
    identities := [];
    for i := 0 to |builtins|
      invariant identities == Chosen(builtins[..i], mask)
    {
      assert builtins[..i + 1] == builtins[..i] + [builtins[i]];
      ChosenAppend(builtins[..i], builtins[i], mask);
      if Bit(mask, i) { identities := identities + [builtins[i]]; }
    }
    assert builtins[..|builtins|] == builtins;
  }

  /** The digest names a non-empty set of built-in extractors. */
  predicate NamesBuiltins(builtins: seq<Extractor>, requested: Digest)
  {
    requested.SetDigest? && requested.extractors != {} && requested.extractors <= Elements(builtins)
  }

  /** The search finds exactly the requested subset when there is one, and nothing for any other digest: a
      file extractor is selected when it was requested and is not the resolver, and the two flags say whether
      the generic extractor and the resolver were. */
  method RepositoryExtractorSelection(builtins: seq<Extractor>, requested: Digest) returns (r: Option<Selection>)
    ensures r.Some? <==> |builtins| < USIZE_BITS && NamesBuiltins(builtins, requested)
    ensures r.Some? ==>
              && (forall id :: id in r.value.fileIds <==>
                    id != RESOLVER && exists e :: e in requested.extractors && e.id == id)
              && (r.value.genericEnabled <==> exists e :: e in requested.extractors && e.id == GENERIC)
              && (r.value.resolverEnabled <==> exists e :: e in requested.extractors && e.id == RESOLVER)
  {
    if |builtins| >= USIZE_BITS { return None; }
    var variants := Pow2(|builtins|);
    var mask := 1;
    while mask < variants
      invariant 1 <= mask <= variants
      invariant forall m :: 1 <= m < mask ==> requested != SetDigest(Elements(Chosen(builtins, m)))
      decreases variants - mask
    {
      var identities := Gather(builtins, mask);
      if SetDigest(Elements(identities)) == requested {
        ChosenAreBuiltin(builtins, mask);
        ChosenNonEmpty(builtins, mask);
        assert identities[0] in requested.extractors;
        var fileIds := FileIds(Elements(identities));
        var resolver := exists i :: 0 <= i < |identities| && identities[i].id == RESOLVER;
        return Some(Selection(fileIds, GENERIC in fileIds, resolver));
      }
      mask := mask + 1;
    }
    r := None;
    if NamesBuiltins(builtins, requested) { EverySubsetIsTried(builtins, requested.extractors); }
  }

  lemma EverySubsetIsTried(builtins: seq<Extractor>, chosen: set<Extractor>)
    requires chosen != {} && chosen <= Elements(builtins)
    ensures 1 <= MaskOf(builtins, chosen) < Pow2(|builtins|)
        && Elements(Chosen(builtins, MaskOf(builtins, chosen))) == chosen
  {
    var x :| x in chosen;
    assert x in builtins;
    MaskChooses(builtins, chosen);
  }
}
