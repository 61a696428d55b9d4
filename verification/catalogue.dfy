/** Flavor sizing, pricing and the merge of the overrides over the built-in seed
    (pkg/providers/instancetype/instancetype.go). */
module Catalogue {
  import opened Base

  datatype Sizing = Sizing(cpu: int, memoryKi: int)

  predicate AtLeast(s: Sizing, o: Sizing) {
    s.cpu >= o.cpu && s.memoryKi >= o.memoryKi
  }

  /** What sizes flavors for the refusal memory: the flavors a catalogue knows, fixed for the
      provider's lifetime. A nil Catalogue is the empty map. */
  type Sizes = map<string, Sizing>

  const UNSIZED := Sizing(0, 0)

  function SizeOf(sizes: Sizes, flavor: string): Sizing {
    if flavor in sizes then sizes[flavor] else UNSIZED
  }

  /** FlavorSizing, smallest to largest. */
  const SEED: map<string, Sizing> := map[
    "2XS" := Sizing(4, 3715344),
    "XS" := Sizing(6, 7553664),
    "S" := Sizing(8, 11385832),
    "M" := Sizing(10, 15229256),
    "L" := Sizing(12, 22896304),
    "XL" := Sizing(16, 30584176)]

  const REFERENCE := Sizing(4, 3715344)

  /** Price in units of 1e-4: one third by vCPUs, two thirds by memory, relative to the smallest
      built-in flavor, rounded half up. The quotient is exact: cpu / 12 + 2 * memory / (3 * 3715344)
      over the common denominator 11146032. */
  function RelativePrice(size: Sizing): int {
    (20000 * (928836 * size.cpu + 2 * size.memoryKi) + 11146032) / (2 * 11146032)
  }

  /** The reference flavor costs exactly 1, and no flavor that is at least as large is priced lower. */
  lemma PriceFollowsSize(s: Sizing, o: Sizing)
    requires AtLeast(s, o)
    ensures RelativePrice(s) >= RelativePrice(o)
    ensures RelativePrice(REFERENCE) == 10000
  {
    assert 928836 * s.cpu + 2 * s.memoryKi >= 928836 * o.cpu + 2 * o.memoryKi;
  }

  /** It is the stated formula, to the nearest unit: a third by vCPUs and two thirds by memory, each relative
      to the smallest flavor's. */
  lemma PriceIsTheFormula(size: Sizing)
    ensures var exact := (1.0 / 3.0) * (size.cpu as real / 4.0) + (2.0 / 3.0) * (size.memoryKi as real / 3715344.0);
            10000.0 * exact - 0.5 < RelativePrice(size) as real <= 10000.0 * exact + 0.5
  {
    var n := 928836 * size.cpu + 2 * size.memoryKi;
    var price := RelativePrice(size);
    assert 22292064 * price <= 20000 * n + 11146032 < 22292064 * (price + 1);
    assert 22292064.0 * price as real <= 20000.0 * n as real + 11146032.0 < 22292064.0 * (price as real + 1.0);
    assert n as real == 928836.0 * size.cpu as real + 2.0 * size.memoryKi as real;
  }

  datatype Flavor = Flavor(name: string, cpu: int, memoryKi: int, price: int) {
    function Size(): Sizing { Sizing(cpu, memoryKi) }
  }

  datatype Override = Override(name: string, cpu: Option<int>, memoryKi: Option<int>)

  /** The names of a list, in order. */
  function NamesOf<T>(xs: seq<T>, name: T -> string): (names: seq<string>)
    ensures |names| == |xs| && forall i | 0 <= i < |xs| :: names[i] == name(xs[i])
  {
    seq(|xs|, i requires 0 <= i < |xs| => name(xs[i]))
  }

  function FlavorNames(fs: seq<Flavor>): seq<string> { NamesOf(fs, (f: Flavor) => f.name) }

  function OverrideNames(os: seq<Override>): seq<string> { NamesOf(os, (o: Override) => o.name) }

  /** What a map filled in list order keeps of a name: its last entry. */
  function BaseByName(base: seq<Flavor>): (m: map<string, Flavor>)
    ensures m.Keys == set n | n in FlavorNames(base)
  {
    if base == [] then map[]
    else
      var last := base[|base| - 1];
      assert base == base[..|base| - 1] + [last];
      assert FlavorNames(base) == FlavorNames(base[..|base| - 1]) + [last.name];
      BaseByName(base[..|base| - 1])[last.name := last]
  }

  function OverrideByName(overrides: seq<Override>): (m: map<string, Override>)
    ensures m.Keys == set n | n in OverrideNames(overrides)
  {
    if overrides == [] then map[]
    else
      var last := overrides[|overrides| - 1];
      assert overrides == overrides[..|overrides| - 1] + [last];
      assert OverrideNames(overrides) == OverrideNames(overrides[..|overrides| - 1]) + [last.name];
      OverrideByName(overrides[..|overrides| - 1])[last.name := last]
  }

  /** The elements of a sequence that satisfy a test, in order. */
  function Filter(names: seq<string>, keep: string -> bool): (r: seq<string>)
    ensures forall n :: n in r <==> n in names && keep(n)
  {
    if names == [] then []
    else Filter(names[..|names| - 1], keep)
         + (if keep(names[|names| - 1]) then [names[|names| - 1]] else [])
  }

  /** The base names in base order, then the override-only names in override order. */
  function MergeOrder(base: seq<Flavor>, overrides: seq<Override>): seq<string> {
    Dedup(FlavorNames(base)) + Filter(OverrideNames(overrides), n => n !in BaseByName(base))
  }

  /** The size a merged name ends up with: the override's value, else the base's, else the seed's. */
  function MergedSize(base: seq<Flavor>, overrides: seq<Override>, name: string): Sizing {
    SizeFrom(BaseByName(base), OverrideByName(overrides), name)
  }

  function SizeFrom(byName: map<string, Flavor>, overrideByName: map<string, Override>, name: string): Sizing {
    var seeded := if name in byName then byName[name].Size() else SizeOf(SEED, name);
    if name in overrideByName then
      var o := overrideByName[name];
      Sizing(if o.cpu.Some? then o.cpu.value else seeded.cpu,
             if o.memoryKi.Some? then o.memoryKi.value else seeded.memoryKi)
    else seeded
  }

  predicate Constructible(size: Sizing) { size.cpu > 0 && size.memoryKi > 0 }

  function ServedNames(base: seq<Flavor>, overrides: seq<Override>, order: seq<string>): seq<string> {
    Filter(order, n => Constructible(MergedSize(base, overrides, n)))
  }

  function SkippedNames(base: seq<Flavor>, overrides: seq<Override>, order: seq<string>): seq<string> {
    Filter(order, n => !Constructible(MergedSize(base, overrides, n)))
  }

  predicate PricedAndSized(base: seq<Flavor>, overrides: seq<Override>, result: seq<Flavor>) {
    forall f <- result :: f.Size() == MergedSize(base, overrides, f.name) && f.price == RelativePrice(f.Size())
  }

  /** Base names in base order first, then those only overridden: every name where it first appears. */
  lemma {:induction false} OrderOfAppearance(base: seq<Flavor>, overrides: seq<Override>)
    requires Distinct(OverrideNames(overrides))
    ensures MergeOrder(base, overrides) == Dedup(FlavorNames(base) + OverrideNames(overrides))
    decreases |overrides|
  {
    var names := FlavorNames(base);
    if overrides == [] {
      assert names + OverrideNames(overrides) == names;
    } else {
      var n := |overrides| - 1;
      var before, last := OverrideNames(overrides[..n]), overrides[n].name;
      LastOverride(overrides);
      OrderOfAppearance(base, overrides[..n]);
      calc {
        MergeOrder(base, overrides);
        { assert overrides[..n + 1] == overrides; OverrideStep(base, overrides, n); }
        MergeOrder(base, overrides[..n]) + (if last in BaseByName(base) then [] else [last]);
        Dedup(names + before) + (if last in names + before then [] else [last]);
        { DedupOneMore(names + before, last); }
        Dedup(names + before + [last]);
        { assert names + before + [last] == names + (before + [last]); }
        Dedup(names + OverrideNames(overrides));
      }
    }
  }

  lemma LastOverride(overrides: seq<Override>)
    requires overrides != [] && Distinct(OverrideNames(overrides))
    ensures var n := |overrides| - 1;
            var before := OverrideNames(overrides[..n]);
            && OverrideNames(overrides) == before + [overrides[n].name]
            && Distinct(before) && overrides[n].name !in before
  {
    var n := |overrides| - 1;
    var names, before := OverrideNames(overrides), OverrideNames(overrides[..n]);
    assert names == before + [overrides[n].name];
    assert forall i | 0 <= i < n :: before[i] == names[i] && names[i] != names[n];
  }

  /** ApplyOverrides: the constructible names of the merge order, sized and priced; the others skipped. */
  method ApplyOverrides(base: seq<Flavor>, overrides: seq<Override>) returns (result: seq<Flavor>, skipped: seq<string>)
    ensures FlavorNames(result) == ServedNames(base, overrides, MergeOrder(base, overrides))
    ensures skipped == SkippedNames(base, overrides, MergeOrder(base, overrides))
    ensures PricedAndSized(base, overrides, result)
  {
    var byName: map<string, Flavor> := map[];
    var order: seq<string> := [];
    for i := 0 to |base|
      invariant order == Dedup(FlavorNames(base[..i])) && byName == BaseByName(base[..i])
    {
      BaseStep(base, i);
      if base[i].name !in byName {
        order := order + [base[i].name];
      }
      byName := byName[base[i].name := base[i]];
    }
    assert base[..|base|] == base;
    var overrideByName: map<string, Override> := map[];
    for i := 0 to |overrides|
      invariant order == MergeOrder(base, overrides[..i]) && overrideByName == OverrideByName(overrides[..i])
    {
      OverrideStep(base, overrides, i);
      overrideByName := overrideByName[overrides[i].name := overrides[i]];
      if overrides[i].name !in byName {
        order := order + [overrides[i].name];
      }
    }
    assert overrides[..|overrides|] == overrides;
    result, skipped := Price(base, overrides, byName, overrideByName, order);
  }

  /** The last loop of ApplyOverrides: size each name of the order, then price it or skip it. */
  method Price(ghost base: seq<Flavor>, ghost overrides: seq<Override>, byName: map<string, Flavor>,
               overrideByName: map<string, Override>, order: seq<string>)
    returns (result: seq<Flavor>, skipped: seq<string>)
    requires byName == BaseByName(base) && overrideByName == OverrideByName(overrides)
    ensures FlavorNames(result) == ServedNames(base, overrides, order)
    ensures skipped == SkippedNames(base, overrides, order)
    ensures PricedAndSized(base, overrides, result)
  {
    result, skipped := [], [];
    for i := 0 to |order|
      invariant FlavorNames(result) == ServedNames(base, overrides, order[..i])
      invariant skipped == SkippedNames(base, overrides, order[..i])
      invariant PricedAndSized(base, overrides, result)
    {
      var name := order[i];
      var seed := SizeOf(SEED, name);
      var f := if name in byName then byName[name].(name := name) else Flavor(name, seed.cpu, seed.memoryKi, 0);
      if name in overrideByName {
        var o := overrideByName[name];
        f := f.(cpu := if o.cpu.Some? then o.cpu.value else f.cpu,
                memoryKi := if o.memoryKi.Some? then o.memoryKi.value else f.memoryKi);
      }
      assert f.Size() == SizeFrom(byName, overrideByName, name);
      PriceStep(base, overrides, order, i);
      if f.cpu <= 0 || f.memoryKi <= 0 {
        skipped := skipped + [name];
        continue;
      }
      f := f.(price := RelativePrice(f.Size()));
      AppendPriced(base, overrides, result, f);
      result := result + [f];
    }
    assert order[..|order|] == order;
  }

  lemma AppendPriced(base: seq<Flavor>, overrides: seq<Override>, result: seq<Flavor>, f: Flavor)
    requires PricedAndSized(base, overrides, result)
    requires f.Size() == MergedSize(base, overrides, f.name) && f.price == RelativePrice(f.Size())
    ensures PricedAndSized(base, overrides, result + [f])
    ensures FlavorNames(result + [f]) == FlavorNames(result) + [f.name]
  {
  }

  lemma BaseStep(base: seq<Flavor>, i: nat)
    requires i < |base|
    ensures BaseByName(base[..i + 1]) == BaseByName(base[..i])[base[i].name := base[i]]
    ensures base[i].name in BaseByName(base[..i]) <==> base[i].name in Dedup(FlavorNames(base[..i]))
    ensures Dedup(FlavorNames(base[..i + 1])) ==
            Dedup(FlavorNames(base[..i])) + (if base[i].name in BaseByName(base[..i]) then [] else [base[i].name])
  {
    assert base[..i + 1][..i] == base[..i];
    assert FlavorNames(base[..i + 1])[..i] == FlavorNames(base[..i]);
  }

  lemma OverrideStep(base: seq<Flavor>, overrides: seq<Override>, i: nat)
    requires i < |overrides|
    ensures OverrideByName(overrides[..i + 1]) == OverrideByName(overrides[..i])[overrides[i].name := overrides[i]]
    ensures MergeOrder(base, overrides[..i + 1]) ==
            MergeOrder(base, overrides[..i])
            + (if overrides[i].name in BaseByName(base) then [] else [overrides[i].name])
  {
    assert overrides[..i + 1][..i] == overrides[..i];
    assert OverrideNames(overrides[..i + 1])[..i] == OverrideNames(overrides[..i]);
  }

  lemma PriceStep(base: seq<Flavor>, overrides: seq<Override>, order: seq<string>, i: nat)
    requires i < |order|
    ensures var ok := Constructible(MergedSize(base, overrides, order[i]));
            ServedNames(base, overrides, order[..i + 1]) ==
              ServedNames(base, overrides, order[..i]) + (if ok then [order[i]] else [])
            && SkippedNames(base, overrides, order[..i + 1]) ==
              SkippedNames(base, overrides, order[..i]) + (if ok then [] else [order[i]])
  {
    assert order[..i + 1][..i] == order[..i];
  }

  /** The documented precedence, stated on the lists: an override of distinct name wins field by
      field, then the last base entry of the name; without a base entry, the seed; failing that, nothing. */
  lemma MergedSizePrecedence(base: seq<Flavor>, overrides: seq<Override>, name: string)
    requires Distinct(OverrideNames(overrides))
    ensures forall o | o in overrides && o.name == name ::
              && (o.cpu.Some? ==> MergedSize(base, overrides, name).cpu == o.cpu.value)
              && (o.memoryKi.Some? ==> MergedSize(base, overrides, name).memoryKi == o.memoryKi.value)
    ensures forall i | 0 <= i < |base| && base[i].name == name && (forall j | i < j < |base| :: base[j].name != name) ::
              && ((forall o <- overrides :: o.name == name ==> o.cpu.None?) ==>
                    MergedSize(base, overrides, name).cpu == base[i].cpu)
              && ((forall o <- overrides :: o.name == name ==> o.memoryKi.None?) ==>
                    MergedSize(base, overrides, name).memoryKi == base[i].memoryKi)
    ensures name !in FlavorNames(base) ==>
              && ((forall o <- overrides :: o.name == name ==> o.cpu.None?) ==>
                    MergedSize(base, overrides, name).cpu == SizeOf(SEED, name).cpu)
              && ((forall o <- overrides :: o.name == name ==> o.memoryKi.None?) ==>
                    MergedSize(base, overrides, name).memoryKi == SizeOf(SEED, name).memoryKi)
  {
    forall o | o in overrides && o.name == name ensures OverrideByName(overrides)[name] == o {
      OverrideKept(overrides, o);
    }
    if name in OverrideByName(overrides) { OverrideComesFrom(overrides, name); }
    forall i | 0 <= i < |base| && base[i].name == name && (forall j | i < j < |base| :: base[j].name != name)
      ensures name in BaseByName(base) && BaseByName(base)[name] == base[i]
    {
      LastBaseKept(base, i);
    }
  }

  lemma {:induction false} OverrideKept(overrides: seq<Override>, o: Override)
    requires Distinct(OverrideNames(overrides)) && o in overrides
    ensures o.name in OverrideByName(overrides) && OverrideByName(overrides)[o.name] == o
  {
    var n := |overrides| - 1;
    var k :| 0 <= k < |overrides| && overrides[k] == o;
    if k < n {
      assert OverrideNames(overrides)[k] != OverrideNames(overrides)[n];
      assert forall i | 0 <= i < n :: OverrideNames(overrides[..n])[i] == OverrideNames(overrides)[i];
      assert overrides[..n][k] == o;
      OverrideKept(overrides[..n], o);
    }
  }

  lemma {:induction false} OverrideComesFrom(overrides: seq<Override>, name: string)
    requires name in OverrideByName(overrides)
    ensures OverrideByName(overrides)[name] in overrides && OverrideByName(overrides)[name].name == name
  {
    var n := |overrides| - 1;
    if overrides[n].name != name { OverrideComesFrom(overrides[..n], name); }
  }

  lemma {:induction false} LastBaseKept(base: seq<Flavor>, i: nat)
    requires i < |base| && forall j | i < j < |base| :: base[j].name != base[i].name
    ensures base[i].name in BaseByName(base) && BaseByName(base)[base[i].name] == base[i]
  {
    var n := |base| - 1;
    if i < n {
      assert base[n].name != base[i].name;
      LastBaseKept(base[..n], i);
    }
  }

  /** The merge loses no name and repeats none, between a catalogue of usable flavors whose prices
      follow their sizes and the list of the names it had to skip. */
  lemma MergeIsAPartition(base: seq<Flavor>, overrides: seq<Override>, result: seq<Flavor>, skipped: seq<string>)
    requires Distinct(OverrideNames(overrides))
    requires FlavorNames(result) == ServedNames(base, overrides, MergeOrder(base, overrides))
    requires skipped == SkippedNames(base, overrides, MergeOrder(base, overrides))
    requires PricedAndSized(base, overrides, result)
    ensures Distinct(FlavorNames(result)) && Distinct(skipped)
    ensures forall n :: n in FlavorNames(result) || n in skipped <==>
        n in FlavorNames(base) || n in OverrideNames(overrides)
    ensures forall n <- skipped :: n !in FlavorNames(result)
    ensures forall n :: n in skipped <==>
        (n in FlavorNames(base) || n in OverrideNames(overrides))
        && (MergedSize(base, overrides, n).cpu <= 0 || MergedSize(base, overrides, n).memoryKi <= 0)
    ensures forall f, g | f in result && g in result && AtLeast(f.Size(), g.Size()) :: f.price >= g.price
  {
    var order := MergeOrder(base, overrides);
    MergeOrderIsDistinct(base, overrides);
    FilterKeepsDistinct(order, n => Constructible(MergedSize(base, overrides, n)));
    FilterKeepsDistinct(order, n => !Constructible(MergedSize(base, overrides, n)));
    forall f, g | f in result && g in result && AtLeast(f.Size(), g.Size()) ensures f.price >= g.price {
      PriceFollowsSize(f.Size(), g.Size());
    }
  }

  lemma MergeOrderIsDistinct(base: seq<Flavor>, overrides: seq<Override>)
    requires Distinct(OverrideNames(overrides))
    ensures Distinct(MergeOrder(base, overrides))
    ensures forall n :: n in MergeOrder(base, overrides) <==> n in FlavorNames(base) || n in OverrideNames(overrides)
  {
    FilterKeepsDistinct(OverrideNames(overrides), n => n !in BaseByName(base));
    DistinctConcat(Dedup(FlavorNames(base)), Filter(OverrideNames(overrides), n => n !in BaseByName(base)));
  }

  lemma DistinctConcat(a: seq<string>, b: seq<string>)
    requires Distinct(a) && Distinct(b) && forall n <- b :: n !in a
    ensures Distinct(a + b)
  {
    forall i, j | 0 <= i < j < |a + b| ensures (a + b)[i] != (a + b)[j] {
      if i < |a| <= j { assert b[j - |a|] in b; }
    }
  }

  lemma {:induction false} FilterKeepsDistinct(names: seq<string>, keep: string -> bool)
    requires Distinct(names)
    ensures Distinct(Filter(names, keep))
  {
    if names != [] {
      var n := |names| - 1;
      FilterKeepsDistinct(names[..n], keep);
      assert names[n] !in names[..n];
    }
  }
}
