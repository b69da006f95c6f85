// The bulk region loader (CMSIS/mpu_armv8.h) over the registers of the Armv8-M memory protection unit.

module MpuLoader {

  datatype Region = Region(rbar: nat, rlar: nat)

  // The words of a table in memory: RBAR and RLAR alternate.
  function Word(table: seq<Region>, j: nat): nat
    requires j < 2 * |table|
  {
    if j % 2 == 0 then table[j / 2].rbar else table[j / 2].rlar
  }

  function WithWord(r: Region, j: nat, value: nat): Region {
    if j % 2 == 0 then r.(rbar := value) else r.(rlar := value)
  }

  // Setting each region of the table in turn: the reference.
  function SetInTurn(regions: seq<Region>, rnr: nat, table: seq<Region>): (r: seq<Region>)
    requires rnr + |table| <= |regions|
    ensures |r| == |regions|
    decreases |table|
  {
    if table == [] then regions else SetInTurn(regions[rnr := table[0]], rnr + 1, table[1..])
  }

  // Region rnr+i holds table[i] and the rest is unchanged.
  lemma {:induction false} SetInTurnIs(regions: seq<Region>, rnr: nat, table: seq<Region>)
    requires rnr + |table| <= |regions|
    ensures SetInTurn(regions, rnr, table) == regions[..rnr] + table + regions[rnr + |table|..]
    decreases |table|
  {
    if table != [] { SetInTurnIs(regions[rnr := table[0]], rnr + 1, table[1..]); }
  }

  // One load or two, cut anywhere.
  lemma LoadsCompose(regions: seq<Region>, rnr: nat, a: seq<Region>, b: seq<Region>)
    requires rnr + |a| + |b| <= |regions|
    ensures SetInTurn(regions, rnr, a + b) == SetInTurn(SetInTurn(regions, rnr, a), rnr + |a|, b)
  {
    SetInTurnIs(regions, rnr, a);
    SetInTurnIs(SetInTurn(regions, rnr, a), rnr + |a|, b);
    SetInTurnIs(regions, rnr, a + b);
  }

  lemma LoadedMore(was: seq<Region>, first: nat, table: seq<Region>, at: nat, c: nat)
    requires at + c <= |table| && first + at + c <= |was|
    ensures SetInTurn(SetInTurn(was, first, table[..at]), first + at, table[at..at + c])
         == SetInTurn(was, first, table[..at + c])
  {
    LoadsCompose(was, first, table[..at], table[at..at + c]);
    assert table[..at + c] == table[..at] + table[at..at + c];
  }

  // What region r holds once i words have been copied: possibly half of the old region.
  function Copied(was: seq<Region>, first: nat, table: seq<Region>, from: nat, i: nat, r: nat): Region
    requires r < |was| && 2 * from + i <= 2 * |table|
  {
    if r < first || first + (i + 1) / 2 <= r then was[r]
    else if r < first + i / 2 then table[from + r - first]
    else Region(table[from + r - first].rbar, was[r].rlar)
  }

  predicate PartlyCopied(was: seq<Region>, now: seq<Region>, first: nat, table: seq<Region>, from: nat, i: nat)
  {
    && |now| == |was|
    && 2 * from + i <= 2 * |table|
    && forall r | 0 <= r < |was| :: now[r] == Copied(was, first, table, from, i, r)
  }

  lemma NothingCopied(was: seq<Region>, first: nat, table: seq<Region>, from: nat)
    requires from <= |table|
    ensures PartlyCopied(was, was, first, table, from, 0)
  {
  }

  lemma OneMoreWord(was: seq<Region>, now: seq<Region>, first: nat, table: seq<Region>, from: nat, i: nat)
    requires PartlyCopied(was, now, first, table, from, i)
    requires 2 * from + i < 2 * |table| && first + i / 2 < |was|
    ensures var r := first + i / 2;
      PartlyCopied(was, now[r := WithWord(now[r], i, Word(table, 2 * from + i))], first, table, from, i + 1)
  {
    assert (2 * from + i) / 2 == from + i / 2 && (2 * from + i) % 2 == i % 2;
  }

  lemma AllCopied(was: seq<Region>, now: seq<Region>, first: nat, table: seq<Region>, from: nat, c: nat)
    requires PartlyCopied(was, now, first, table, from, 2 * c) && first + c <= |was|
    ensures now == SetInTurn(was, first, table[from..from + c])
  {
    SetInTurnIs(was, first, table[from..from + c]);
  }

  // The region that word w, counted from RBAR, gives access to: RBAR and RLAR reach the region
  // in RNR, alias n the n-th region of the group of four that holds it.
  function WindowOf(rnr: nat, w: nat): nat { if w < 2 then rnr else rnr - rnr % 4 + w / 2 }

  // It stays in the group of four that RNR is in.
  lemma InGroup(rnr: nat, w: nat)
    requires w < 8
    ensures WindowOf(rnr, w) / 4 == rnr / 4 && (w >= 2 ==> WindowOf(rnr, w) % 4 == w / 2)
  {
  }

  lemma Window(rnr: nat, off: nat, i: nat)
    requires rnr % 4 == 0 || 2 * off + i < 2
    ensures WindowOf(rnr, 2 * off + i) == rnr + off + i / 2 && (2 * off + i) % 2 == i % 2
  {
  }

  class Mpu {
    const regions: array<Region>
    var rnr: nat

    constructor (count: nat)
      requires count <= 256
      ensures fresh(regions) && regions.Length == count
    {
      regions := new Region[count](_ => Region(0, 0));
      rnr := 0;
    }

    function WindowRegion(w: nat): nat
      reads this
    {
      WindowOf(rnr, w)
    }

    method StoreWord(w: nat, value: nat)
      requires w < 8 && WindowRegion(w) < regions.Length
      modifies regions
      ensures regions[..] == old(regions[..])[WindowRegion(w) := WithWord(old(regions[WindowRegion(w)]), w, value)]
    {
      var r := WindowRegion(w);
      regions[r] := if w % 2 == 0 then Region(value, regions[r].rlar) else Region(regions[r].rbar, value);
    }

    method SetRegionEx(region: nat, rbar: nat, rlar: nat)
      requires region < regions.Length
      modifies this, regions
      ensures rnr == region && regions[..] == old(regions[..])[region := Region(rbar, rlar)]
    {
      rnr := region;
      StoreWord(0, rbar);
      StoreWord(1, rlar);
    }

    // Word i of the copy.
    method CopyWord(off: nat, table: seq<Region>, from: nat, i: nat, ghost was: seq<Region>)
      requires 2 * off + i < 8 && 2 * from + i < 2 * |table|
      requires rnr % 4 == 0 || 2 * off + i < 2
      requires rnr + off + i / 2 < regions.Length
      requires PartlyCopied(was, regions[..], rnr + off, table, from, i)
      modifies regions
      ensures PartlyCopied(was, regions[..], rnr + off, table, from, i + 1)
    {
      Window(rnr, off, i);
      OneMoreWord(was, regions[..], rnr + off, table, from, i);
      StoreWord(2 * off + i, Word(table, 2 * from + i));
    }

    // c regions of the table, from its region `from` on, go in order to the registers from alias
    // `off` on, 2 * c words from word 2 * off.
    method OrderedMemcpy(off: nat, table: seq<Region>, from: nat, c: nat)
      requires off + c <= 4 && from + c <= |table|
      requires rnr % 4 == 0 || off + c <= 1
      requires c == 0 || rnr + off + c <= regions.Length
      modifies regions
      ensures c > 0 ==> regions[..] == SetInTurn(old(regions[..]), rnr + off, table[from..from + c])
      ensures c == 0 ==> regions[..] == old(regions[..])
    {
      ghost var was, first := regions[..], rnr + off;
      NothingCopied(was, first, table, from);
      for i := 0 to 2 * c
        invariant PartlyCopied(was, regions[..], first, table, from, i)
      {
        CopyWord(off, table, from, i, was);
      }
      if c > 0 { AllCopied(was, regions[..], first, table, from, c); }
    }

    // Any count fits, 0 and 1 included.
    method LoadEx(first: nat, table: seq<Region>, count: nat)
      requires count <= |table| && first + count <= regions.Length <= 256
      modifies this, regions
      ensures regions[..] == SetInTurn(old(regions[..]), first, table[..count])
      // RNR is left at the group of the last region.
      ensures count == 1 ==> rnr == first
      ensures count > 1 ==> rnr % 4 == 0 && rnr < first + count <= rnr + 4
    {
      ghost var was := regions[..];
      if count == 1 {
        rnr := first;
        OrderedMemcpy(0, table, 0, 1);
      } else {
        var cnt: nat, at: nat := count, 0;
        var rnrBase: nat, rnrOffset: nat := first - first % 4, first % 4;
        rnr := rnrBase;
        assert table[..0] == [];
        while rnrOffset + cnt > 4
          invariant rnr == rnrBase && rnrBase % 4 == 0 && rnrOffset < 4
          invariant at + cnt == count && rnrBase + rnrOffset == first + at
          invariant rnrBase < first + count || count == 0
          invariant regions[..] == SetInTurn(was, first, table[..at])
        {
          var c := 4 - rnrOffset;
          OrderedMemcpy(rnrOffset, table, at, c);
          LoadedMore(was, first, table, at, c);
          at := at + c;
          cnt := cnt - c;
          rnrOffset := 0;
          rnrBase := rnrBase + 4;
          rnr := rnrBase;
        }
        OrderedMemcpy(rnrOffset, table, at, cnt);
        if cnt > 0 { LoadedMore(was, first, table, at, cnt); }
      }
    }
  }
}
