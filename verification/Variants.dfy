/**
 The compiled variants of a package (paur-core/src/build_flags.rs), the toggle
 loop of `paur-cli flag` and the daemon's decoding of a variants field.
 */
module Variants {
  import opened Options

  datatype Variant = Default | V3 | V4 {

    /** The tag used in the database column, on the wire and in URLs. */
    function AsStr(): string {
      match this
      case Default => "default"
      case V3 => "v3"
      case V4 => "v4"
    }

    static function Parse(s: string): Option<Variant> {
      if s == "default" then Some(Default)
      else if s == "v3" then Some(V3)
      else if s == "v4" then Some(V4)
      else None
    }
  }

  /** The set of variants a package is built for; a small value that is copied around. */
  datatype PackageVariants = PackageVariants(default: bool, v3: bool, v4: bool) {

    predicate IsActive(v: Variant) {
      match v
      case Default => default
      case V3 => v3
      case V4 => v4
    }

    function TurnOn(v: Variant): (r: PackageVariants)
      ensures r.IsActive(v)
      ensures forall w: Variant :: w != v ==> r.IsActive(w) == IsActive(w)
    {
      match v
      case Default => this.(default := true)
      case V3 => this.(v3 := true)
      case V4 => this.(v4 := true)
    }

    /** Turning the default variant off is ignored. */
    function TurnOff(v: Variant): (r: PackageVariants)
      ensures r.IsActive(v) <==> v == Default && IsActive(Default)
      ensures forall w: Variant :: w != v ==> r.IsActive(w) == IsActive(w)
    {
      match v
      case Default => this
      case V3 => this.(v3 := false)
      case V4 => this.(v4 := false)
    }

    /** The active variants in build order. */
    function Active(): (r: seq<Variant>)
      ensures forall v: Variant :: v in r <==> IsActive(v)
      ensures forall i, j | 0 <= i < j < |r| :: Position(r[i]) < Position(r[j])
    {
      (if default then [Default] else []) + (if v3 then [V3] else []) + (if v4 then [V4] else [])
    }
  }

  /** What a package is built for when nothing else was asked. */
  const DEFAULT_VARIANTS := PackageVariants(true, false, false)

  /** The place of a variant in the build order. */
  function Position(v: Variant): nat {
    match v
    case Default => 0
    case V3 => 1
    case V4 => 2
  }

  // -------- the toggle loop of `paur-cli flag` --------

  /** How often `v` occurs in `vs`. */
  function Occurrences(vs: seq<Variant>, v: Variant): nat {
    multiset(vs)[v]
  }

  /** What toggling the `named` variants of `current`, one after the other, has to give. */
  predicate Toggled(current: PackageVariants, named: seq<Variant>, updated: PackageVariants) {
    && (updated.default <==> current.default || Default in named)
    && forall v: Variant :: v != Default ==>
         (updated.IsActive(v) <==> (current.IsActive(v) != (Occurrences(named, v) % 2 == 1)))
  }

  lemma ToggleStep(current: PackageVariants, named: seq<Variant>, updated: PackageVariants, v: Variant)
    requires Toggled(current, named, updated)
    ensures Toggled(current, named + [v], if updated.IsActive(v) then updated.TurnOff(v) else updated.TurnOn(v))
  {
    forall w: Variant
      ensures Occurrences(named + [v], w) == Occurrences(named, w) + if w == v then 1 else 0
      ensures w in named + [v] <==> w in named || w == v
    {
      assert multiset(named + [v]) == multiset(named) + multiset{v};
    }
  }

  /**
   Toggles every variant named on the command line, in order. A variant other than the
   default ends up active exactly when it was active and named an even number of times or
   inactive and named an odd number of times. The default is only ever turned on.
   */
  method ToggleAll(current: PackageVariants, named: seq<Variant>) returns (updated: PackageVariants)
    ensures Toggled(current, named, updated)
  {
    updated := current;
    for i := 0 to |named|
      invariant Toggled(current, named[..i], updated)
    {
      assert named[..i + 1] == named[..i] + [named[i]];
      ToggleStep(current, named[..i], updated, named[i]);
      if updated.IsActive(named[i]) {
        updated := updated.TurnOff(named[i]);
      } else {
        updated := updated.TurnOn(named[i]);
      }
    }
    assert named[..|named|] == named;
  }

  /** Toggling depends on how often each variant is named, never on the order of the names. */
  lemma ToggleIgnoresOrder(current: PackageVariants, a: PackageVariants, b: PackageVariants, xs: seq<Variant>, ys: seq<Variant>)
    requires multiset(xs) == multiset(ys)
    requires Toggled(current, xs, a) && Toggled(current, ys, b)
    ensures a == b
  {
    assert Default in xs <==> Default in multiset(xs);
    assert a.IsActive(V3) == b.IsActive(V3) && a.IsActive(V4) == b.IsActive(V4);
  }

  // -------- the wire form --------

  /** Whether every tag of a variants field is known. */
  predicate AllKnown(raw: seq<string>) {
    forall i | 0 <= i < |raw| :: raw[i] == "default" || raw[i] == "v3" || raw[i] == "v4"
  }

  /** The first tag of a variants field that is not known. */
  predicate FirstUnknown(raw: seq<string>, tag: string) {
    exists i :: 0 <= i < |raw| && raw[i] == tag && !AllKnown([tag]) && AllKnown(raw[..i])
  }

  /** The tags the client sends for a list of variants. */
  function Tags(vs: seq<Variant>): (r: seq<string>)
    ensures |r| == |vs| && forall i | 0 <= i < |vs| :: r[i] == vs[i].AsStr()
  {
    seq(|vs|, i requires 0 <= i < |vs| => vs[i].AsStr())
  }

  /** A decoded variants field, as a relation between the tags and the set. */
  predicate Decodes(raw: seq<string>, pv: PackageVariants) {
    pv.default && (pv.v3 <==> "v3" in raw) && (pv.v4 <==> "v4" in raw)
  }

  /** The set that such a field names. */
  function Tagged(raw: seq<string>): (pv: PackageVariants)
    ensures Decodes(raw, pv)
  {
    PackageVariants(true, "v3" in raw, "v4" in raw)
  }

  /**
   Decodes a variants field. The first unknown tag is reported; otherwise the result holds
   exactly the named variants, with the default always added.
   */
  method ParseVariantsField(raw: seq<string>) returns (r: Result<PackageVariants, string>)
    ensures r.Ok? <==> AllKnown(raw)
    ensures r.Ok? ==> Decodes(raw, r.value)
    ensures r.Err? ==> FirstUnknown(raw, r.error)
  {
    var out := DEFAULT_VARIANTS;
    for i := 0 to |raw|
      invariant AllKnown(raw[..i]) && Decodes(raw[..i], out)
    {
      match Variant.Parse(raw[i]) {
        case None =>
          assert [raw[i]][0] == raw[i];
          return Err(raw[i]);
        case Some(v) => out := out.TurnOn(v);
      }
      assert raw[..i + 1] == raw[..i] + [raw[i]];
    }
    assert raw[..|raw|] == raw;
    return Ok(out);
  }

  /**
   Sending `Active()` through `AsStr` and decoding it again gives back the same set with the
   default forced on, and nothing else.
   */
  lemma WireRoundTrip(pv: PackageVariants, decoded: PackageVariants)
    requires Decodes(Tags(pv.Active()), decoded)
    ensures AllKnown(Tags(pv.Active()))
    ensures decoded == pv.(default := true)
  {
    TagsOf(pv.Active(), V3);
    TagsOf(pv.Active(), V4);
    var vs := pv.Active();
    forall i | 0 <= i < |vs|
      ensures Tags(vs)[i] == "default" || Tags(vs)[i] == "v3" || Tags(vs)[i] == "v4"
    {
    }
  }

  /** Different variants have different tags. */
  lemma TagsOf(vs: seq<Variant>, v: Variant)
    ensures v.AsStr() in Tags(vs) <==> v in vs
  {
    if v in vs {
      var i :| 0 <= i < |vs| && vs[i] == v;
      assert Tags(vs)[i] == v.AsStr();
    }
    forall i | 0 <= i < |vs| && Tags(vs)[i] == v.AsStr()
      ensures vs[i] == v
    {
      assert Variant.Parse(vs[i].AsStr()) == Some(vs[i]);
    }
  }

  /**
   A toggle request end to end: the client toggles `named` on the set it read, sends the
   active tags, and the daemon decodes them. Only the default can differ from the toggled set.
   */
  method ToggleOverTheWire(current: PackageVariants, named: seq<Variant>) returns (stored: PackageVariants)
    ensures exists updated :: Toggled(current, named, updated) && stored == updated.(default := true)
  {
    var updated := ToggleAll(current, named);
    var raw := Tags(updated.Active());
    var r := ParseVariantsField(raw);
    var witnessed := updated.(default := true);
    TagsOf(updated.Active(), V3);
    TagsOf(updated.Active(), V4);
    WireRoundTrip(updated, witnessed);
    stored := r.value;
    WireRoundTrip(updated, stored);
  }
}
