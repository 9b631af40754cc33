/**
 * Memory and swap of a host (internal/model/capacity.go) and the overcommit warning (internal/workspace/semantic.go).
 */
module Capacity {
  import opened Text
  import opened Catalog

  /** The sizes of the t families that differ from the general-purpose ones. */
  function BurstableRAMMB(size: string): Option<nat> {
    if size == "nano" then Some(512)
    else if size == "micro" then Some(1024)
    else if size == "small" then Some(2048)
    else if size == "medium" then Some(4096)
    else None
  }

  function FamilyRAMMB(letter: char, size: string): Option<nat> {
    if letter == 'm' then
      (if size == "medium" then Some(4096)
       else if size == "large" then Some(8192)
       else if size == "xlarge" then Some(16384)
       else if size == "2xlarge" then Some(32768)
       else if size == "4xlarge" then Some(65536)
       else if size == "8xlarge" then Some(131072)
       else None)
    else if letter == 'c' then
      (if size == "large" then Some(4096)
       else if size == "xlarge" then Some(8192)
       else if size == "2xlarge" then Some(16384)
       else if size == "4xlarge" then Some(32768)
       else if size == "8xlarge" then Some(65536)
       else None)
    else if letter == 'r' then
      (if size == "large" then Some(16384)
       else if size == "xlarge" then Some(32768)
       else if size == "2xlarge" then Some(65536)
       else if size == "4xlarge" then Some(131072)
       else None)
    else None
  }

  /** `strings.Cut` at the first dot. */
  function Cut(s: string): (r: Option<(string, string)>)
    ensures r.Some? ==> s == r.value.0 + "." + r.value.1 && '.' !in r.value.0
    ensures r.None? ==> '.' !in s
  {
    if s == "" then None
    else if s[0] == '.' then Some(("", s[1..]))
    else
      var rest := Cut(s[1..]);
      if rest.None? then None else Some(([s[0]] + rest.value.0, rest.value.1))
  }

  /** `InstanceRAMMB`: a whole number of half gibibytes, where the type is known. */
  function InstanceRAMMB(instanceType: string): (r: Option<nat>)
    ensures r.Some? ==> r.value >= 512 && r.value % 512 == 0
  {
    var cut := Cut(instanceType);
    if cut.None? || cut.value.0 == "" then None
    else
      var family, size := cut.value.0, cut.value.1;
      if family[0] == 't' then
        (if BurstableRAMMB(size).Some? then BurstableRAMMB(size) else FamilyRAMMB('m', size))
      else FamilyRAMMB(family[0], size)
  }

  /** vCPUs by size, medium and up. */
  function Cpus(size: string): Option<nat> {
    if size == "medium" then Some(1)
    else if size == "large" then Some(2)
    else if size == "xlarge" then Some(4)
    else if size == "2xlarge" then Some(8)
    else if size == "4xlarge" then Some(16)
    else if size == "8xlarge" then Some(32)
    else None
  }

  lemma {:induction false} CutAt(family: string, size: string)
    requires '.' !in family
    ensures Cut(family + "." + size) == Some((family, size))
    decreases |family|
  {
    var s := family + "." + size;
    if family == "" {
      assert s == "." + size && s[1..] == size;
    } else {
      assert s[1..] == family[1..] + "." + size;
      assert '.' !in family[1..];
      CutAt(family[1..], size);
      assert family == [family[0]] + family[1..];
    }
  }

  /**
   * The memory of a type: 4 GiB a vCPU for the general-purpose families and the t families from large on, 2 for c, 8
   * for r, and four smaller t sizes; which sizes are known differs by family.
   */
  lemma RAMIsPerCpu(family: string, size: string)
    requires family != "" && '.' !in family
    ensures var ram, cpus := InstanceRAMMB(family + "." + size), Cpus(size);
            match family[0]
            case 'm' => ram == if cpus.Some? then Some(4096 * cpus.value) else None
            case 'c' => ram == if cpus.Some? && size != "medium" then Some(2048 * cpus.value) else None
            case 'r' =>
              ram == if cpus.Some? && size != "medium" && size != "8xlarge" then Some(8192 * cpus.value) else None
            case 't' =>
              ram == if size == "nano" then Some(512)
                     else if size == "micro" then Some(1024)
                     else if size == "small" then Some(2048)
                     else if cpus.Some? then Some(4096 * cpus.value) else None
            case _ => ram == None
  {
    CutAt(family, size);
  }

  /** A type without a family or a dot is not known. */
  lemma NoFamilyNoRAM(instanceType: string)
    requires '.' !in instanceType || instanceType[0] == '.'
    ensures InstanceRAMMB(instanceType) == None
  {
  }

  const OS_HEADROOM_MB := 512

  /** What the stacks ask for together. */
  function Hints(stacks: seq<string>, catalog: Catalog): int {
    if stacks == [] then 0
    else Hints(stacks[..|stacks| - 1], catalog) + Lookup(catalog, stacks[|stacks| - 1]).minRamMB
  }

  lemma {:induction false} HintsAppend(a: seq<string>, b: seq<string>, catalog: Catalog)
    ensures Hints(a + b, catalog) == Hints(a, catalog) + Hints(b, catalog)
    decreases |b|
  {
    if b == [] {
      assert a + b == a;
    } else {
      var n := |b| - 1;
      assert (a + b)[..|a| + n] == a + b[..n];
      HintsAppend(a, b[..n], catalog);
    }
  }

  function SwapCap(have: nat): nat {
    if have > 4096 then 4096 else have
  }

  /**
   * Nothing without a deficit; otherwise the least whole number of half gibibytes that covers it, or the cap where that
   * is less.
   */
  predicate Covers(deficit: int, have: nat, swap: int) {
    if deficit <= 0 then swap == 0
    else
      && swap % 512 == 0 && swap - 512 < deficit && 0 < swap <= SwapCap(have)
      && (swap >= deficit || swap == SwapCap(have))
  }

  /** What `SwapForStacks` promises for a list of stacks on an instance type. */
  predicate IsSwap(stacks: seq<string>, catalog: Catalog, instanceType: string, swap: int) {
    var ram := InstanceRAMMB(instanceType);
    if ram.None? then swap == (if "identity" in stacks then 2048 else 0)
    else Covers(512 + Hints(stacks, catalog) - ram.value, ram.value, swap)
  }

  /** `SwapForStacks`. */
  method SwapForStacks(stacks: seq<string>, catalog: Catalog, instanceType: string) returns (swap: int)
    ensures IsSwap(stacks, catalog, instanceType, swap)
  {
    var ram := InstanceRAMMB(instanceType);
    if ram.None? {
      for i := 0 to |stacks|
        invariant "identity" !in stacks[..i]
      {
        if stacks[i] == "identity" {
          return 2048;
        }
      }
      return 0;
    }
    var have := ram.value;
    var want := OS_HEADROOM_MB;
    for i := 0 to |stacks|
      invariant want == OS_HEADROOM_MB + Hints(stacks[..i], catalog)
    {
      PrefixStep(stacks, i);
      want := want + Lookup(catalog, stacks[i]).minRamMB;
    }
    assert stacks[..|stacks|] == stacks;
    var deficit := want - have;
    if deficit <= 0 {
      return 0;
    }
    swap := (deficit + 511) / 512 * 512;
    var maxSwap := have;
    if maxSwap > 4096 {
      maxSwap := 4096;
    }
    if swap > maxSwap {
      swap := maxSwap;
    }
  }

  lemma MultiplesApart(a: int, b: int)
    requires a % 512 == 0 && b % 512 == 0 && a - 512 < b
    ensures a <= b
  {
    assert a == 512 * (a / 512) && b == 512 * (b / 512);
  }

  lemma CoversGrows(less: int, more: int, have: nat, a: int, b: int)
    requires less <= more && have % 512 == 0 && Covers(less, have, a) && Covers(more, have, b)
    ensures a <= b
  {
    if less > 0 {
      if b < SwapCap(have) {
        MultiplesApart(a, b);
      }
    }
  }

  /** The promise leaves one value: the least multiple that covers the deficit, cut off at the cap. */
  lemma SwapIsDetermined(stacks: seq<string>, catalog: Catalog, instanceType: string, a: int, b: int)
    requires IsSwap(stacks, catalog, instanceType, a) && IsSwap(stacks, catalog, instanceType, b)
    ensures a == b
  {
    var ram := InstanceRAMMB(instanceType);
    if ram.Some? {
      var deficit := OS_HEADROOM_MB + Hints(stacks, catalog) - ram.value;
      CoversGrows(deficit, deficit, ram.value, a, b);
      CoversGrows(deficit, deficit, ram.value, b, a);
    }
  }

  /** A known type gets no swap exactly when memory covers the hints and the headroom. */
  lemma NoSwapIff(stacks: seq<string>, catalog: Catalog, instanceType: string, swap: int)
    requires InstanceRAMMB(instanceType).Some? && IsSwap(stacks, catalog, instanceType, swap)
    ensures swap == 0 <==> 512 + Hints(stacks, catalog) <= InstanceRAMMB(instanceType).value
  {
  }

  /** Placing one more stack anywhere in the list never lowers the swap, where hints are not negative. */
  lemma AddingStackNeverLowers(
    before: seq<string>, stack: string, after: seq<string>, catalog: Catalog, instanceType: string, a: int, b: int)
    requires Lookup(catalog, stack).minRamMB >= 0
    requires IsSwap(before + after, catalog, instanceType, a)
    requires IsSwap(before + [stack] + after, catalog, instanceType, b)
    ensures a <= b
  {
    var ram := InstanceRAMMB(instanceType);
    HintsAppend(before, after, catalog);
    HintsAppend(before + [stack], after, catalog);
    HintsAppend(before, [stack], catalog);
    assert Hints([stack], catalog) == Hints([], catalog) + Lookup(catalog, stack).minRamMB by {
      assert [stack][..0] == [];
    }
    if ram.Some? {
      var less := OS_HEADROOM_MB + Hints(before + after, catalog) - ram.value;
      var more := OS_HEADROOM_MB + Hints(before + [stack] + after, catalog) - ram.value;
      CoversGrows(less, more, ram.value, a, b);
    }
  }

  datatype Host = Host(provider: string, instanceType: string, stacks: seq<string>)

  datatype Overcommit = Overcommit(want: int, instanceType: string, have: nat, swap: int)

  /** An empty instance type is the default one. */
  function EffectiveType(h: Host): string {
    if h.instanceType == "" then "t4g.small" else h.instanceType
  }

  predicate IsOvercommitted(h: Host, catalog: Catalog) {
    var ram := InstanceRAMMB(EffectiveType(h));
    h.provider == "aws" && ram.Some? && Hints(h.stacks, catalog) > ram.value
  }

  /** `checkHostCapacity`: it warns exactly about overcommitted hosts, and the swap it announces is positive. */
  method CheckHostCapacity(h: Host, catalog: Catalog, report: seq<Overcommit>) returns (r: seq<Overcommit>)
    ensures !IsOvercommitted(h, catalog) ==> r == report
    ensures IsOvercommitted(h, catalog) ==>
              && |r| == |report| + 1 && r[..|report|] == report
              && r[|report|].want == Hints(h.stacks, catalog)
              && Some(r[|report|].have) == InstanceRAMMB(r[|report|].instanceType)
              && r[|report|].instanceType == (if h.instanceType == "" then "t4g.small" else h.instanceType)
              && IsSwap(h.stacks, catalog, EffectiveType(h), r[|report|].swap) && r[|report|].swap > 0
  {
    r := report;
    if h.provider != "aws" {
      return;
    }
    var itype := EffectiveType(h);
    var ram := InstanceRAMMB(itype);
    if ram.None? {
      return;
    }
    var want := 0;
    for i := 0 to |h.stacks|
      invariant want == Hints(h.stacks[..i], catalog)
    {
      PrefixStep(h.stacks, i);
      want := want + Lookup(catalog, h.stacks[i]).minRamMB;
    }
    assert h.stacks[..|h.stacks|] == h.stacks;
    if want <= ram.value {
      return;
    }
    var swap := SwapForStacks(h.stacks, catalog, itype);
    r := r + [Overcommit(want, itype, ram.value, swap)];
  }
}
