/**
 * The colour inventory of `extractAllColors` (packages/figma-plugin/src/code.ts):
 * a `Map` from hex to `{hex, count, usage}` kept in insertion order, then
 * `Array.from(map.values()).sort((a, b) => b.count - a.count)`, a stable sort.
 */
module ColorTally {
  import opened Wrappers

  /** The `usage` tags: `'fill'`, `'stroke'`, `'text'`. */
  datatype Usage = FillUse | StrokeUse | TextUse

  /** One qualifying paint: its hex and the tag it is counted under. */
  datatype Occurrence = Occurrence(hex: string, usage: Usage)

  /** A value of the map. */
  datatype ColorRecord = ColorRecord(hex: string, count: nat, usage: seq<Usage>)

  /** The position of `hex` among the entries (a `Map` key lookup). */
  function Find(entries: seq<ColorRecord>, hex: string): (r: Option<nat>)
    ensures r.Some? ==> r.value < |entries| && entries[r.value].hex == hex
    ensures r.None? ==> forall i :: 0 <= i < |entries| ==> entries[i].hex != hex
  {
    if entries == [] then None
    else if entries[0].hex == hex then Some(0)
    else
      match Find(entries[1..], hex)
      case None => None
      case Some(i) => Some(i + 1)
  }

  /**
   * One `colorSet.get(hex) || {hex, count: 0, usage: []}`, `count++`,
   * push of the tag unless present, `colorSet.set(hex, existing)`: an existing
   * key keeps its place, a new one goes last.
   */
  function Tally(entries: seq<ColorRecord>, o: Occurrence): seq<ColorRecord> {
    match Find(entries, o.hex)
    case None => entries + [ColorRecord(o.hex, 1, [o.usage])]
    case Some(i) =>
      var e := entries[i];
      entries[i := ColorRecord(e.hex, e.count + 1, if o.usage in e.usage then e.usage else e.usage + [o.usage])]
  }

  /** The map after tallying `os` in order. */
  function TallyAll(entries: seq<ColorRecord>, os: seq<Occurrence>): seq<ColorRecord> {
    if os == [] then entries else Tally(TallyAll(entries, os[..|os| - 1]), os[|os| - 1])
  }

  lemma {:induction false} TallyAllAppend(entries: seq<ColorRecord>, os: seq<Occurrence>, ps: seq<Occurrence>)
    ensures TallyAll(entries, os + ps) == TallyAll(TallyAll(entries, os), ps)
  {
    if ps == [] {
      assert os + ps == os;
    } else {
      TallyAllAppend(entries, os, ps[..|ps| - 1]);
      assert (os + ps)[..|os + ps| - 1] == os + ps[..|ps| - 1];
      assert (os + ps)[|os + ps| - 1] == ps[|ps| - 1];
    }
  }

  /** How many of `os` have hex `hex`. */
  function CountHex(os: seq<Occurrence>, hex: string): nat {
    if os == [] then 0 else CountHex(os[..|os| - 1], hex) + (if os[|os| - 1].hex == hex then 1 else 0)
  }

  lemma {:induction false} CountHexPositive(os: seq<Occurrence>, o: Occurrence)
    requires o in os
    ensures CountHex(os, o.hex) > 0
  {
    if os[|os| - 1] != o {
      assert o in os[..|os| - 1] by {
        var j :| 0 <= j < |os| && os[j] == o;
        assert j < |os| - 1;
        assert os[..|os| - 1][j] == o;
      }
      CountHexPositive(os[..|os| - 1], o);
    }
  }

  /** The sum of the counts. */
  function TotalCount(entries: seq<ColorRecord>): nat {
    if entries == [] then 0 else TotalCount(entries[..|entries| - 1]) + entries[|entries| - 1].count
  }

  lemma {:induction false} TotalCountUpdate(entries: seq<ColorRecord>, i: nat, r: ColorRecord)
    requires i < |entries|
    ensures TotalCount(entries[i := r]) + entries[i].count == TotalCount(entries) + r.count
  {
    var n := |entries| - 1;
    if i < n {
      TotalCountUpdate(entries[..n], i, r);
      assert entries[i := r][..n] == entries[..n][i := r];
    } else {
      assert entries[i := r][..n] == entries[..n];
    }
  }

  predicate DistinctHexes(entries: seq<ColorRecord>) {
    forall i, j :: 0 <= i < j < |entries| ==> entries[i].hex != entries[j].hex
  }

  predicate DistinctUsage(usage: seq<Usage>) {
    forall i, j :: 0 <= i < j < |usage| ==> usage[i] != usage[j]
  }

  /**
   * What the map holds after tallying `os`: one entry per distinct hex, whose
   * count is the number of occurrences of that hex and whose usage lists each
   * tag it occurred under exactly once.
   */
  ghost predicate Summarises(entries: seq<ColorRecord>, os: seq<Occurrence>) {
    && DistinctHexes(entries)
    && (forall h :: Find(entries, h).Some? <==> CountHex(os, h) > 0)
    && (forall i :: 0 <= i < |entries| ==> entries[i].count == CountHex(os, entries[i].hex))
    && (forall i :: 0 <= i < |entries| ==> DistinctUsage(entries[i].usage))
    && (forall i, u :: 0 <= i < |entries| ==> (u in entries[i].usage <==> Occurrence(entries[i].hex, u) in os))
    && TotalCount(entries) == |os|
  }

  lemma TallyNewKey(entries: seq<ColorRecord>, os: seq<Occurrence>, o: Occurrence)
    requires Summarises(entries, os)
    requires Find(entries, o.hex).None?
    ensures Summarises(Tally(entries, o), os + [o])
  {
    assert Tally(entries, o) == entries + [ColorRecord(o.hex, 1, [o.usage])];
    assert CountHex(os, o.hex) == 0;
    NewKeyCounts(entries, os, o);
    NewKeyKeys(entries, os, o);
    NewKeyUsage(entries, os, o);
  }

  lemma NewKeyCounts(entries: seq<ColorRecord>, os: seq<Occurrence>, o: Occurrence)
    requires DistinctHexes(entries)
    requires forall i :: 0 <= i < |entries| ==> entries[i].count == CountHex(os, entries[i].hex)
    requires TotalCount(entries) == |os|
    requires Find(entries, o.hex).None? && CountHex(os, o.hex) == 0
    ensures DistinctHexes(entries + [ColorRecord(o.hex, 1, [o.usage])])
    ensures forall i :: 0 <= i < |entries| + 1 ==>
      (entries + [ColorRecord(o.hex, 1, [o.usage])])[i].count == CountHex(os + [o], (entries + [ColorRecord(o.hex, 1, [o.usage])])[i].hex)
    ensures TotalCount(entries + [ColorRecord(o.hex, 1, [o.usage])]) == |os| + 1
  {
    var os' := os + [o];
    var e' := entries + [ColorRecord(o.hex, 1, [o.usage])];
    assert os'[..|os'| - 1] == os;
    assert e'[..|e'| - 1] == entries;
    forall i | 0 <= i < |e'|
      ensures e'[i].count == CountHex(os', e'[i].hex)
    {
      if i < |entries| {
        assert e'[i] == entries[i];
      }
    }
  }

  lemma NewKeyKeys(entries: seq<ColorRecord>, os: seq<Occurrence>, o: Occurrence)
    requires forall h :: Find(entries, h).Some? <==> CountHex(os, h) > 0
    requires Find(entries, o.hex).None?
    ensures forall h :: Find(entries + [ColorRecord(o.hex, 1, [o.usage])], h).Some? <==> CountHex(os + [o], h) > 0
  {
    var os' := os + [o];
    var e' := entries + [ColorRecord(o.hex, 1, [o.usage])];
    assert os'[..|os'| - 1] == os;
    forall h
      ensures Find(e', h).Some? <==> CountHex(os', h) > 0
    {
      if h == o.hex {
        assert e'[|entries|].hex == h;
      } else if CountHex(os', h) > 0 {
        var k := Find(entries, h).value;
        assert e'[k].hex == h;
      }
    }
  }

  lemma NewKeyUsage(entries: seq<ColorRecord>, os: seq<Occurrence>, o: Occurrence)
    requires forall i, u :: 0 <= i < |entries| ==> (u in entries[i].usage <==> Occurrence(entries[i].hex, u) in os)
    requires Find(entries, o.hex).None?
    requires CountHex(os, o.hex) == 0
    ensures var e' := entries + [ColorRecord(o.hex, 1, [o.usage])];
      forall i, u :: 0 <= i < |e'| ==> (u in e'[i].usage <==> Occurrence(e'[i].hex, u) in os + [o])
  {
    var os' := os + [o];
    var e' := entries + [ColorRecord(o.hex, 1, [o.usage])];
    forall u | Occurrence(o.hex, u) in os
      ensures false
    {
      CountHexPositive(os, Occurrence(o.hex, u));
    }
    forall i, u | 0 <= i < |e'|
      ensures u in e'[i].usage <==> Occurrence(e'[i].hex, u) in os'
    {
      if i < |entries| {
        assert e'[i] == entries[i];
      }
    }
  }

  /** The record a known key's entry becomes. */
  function Bumped(e: ColorRecord, u: Usage): ColorRecord {
    ColorRecord(e.hex, e.count + 1, if u in e.usage then e.usage else e.usage + [u])
  }

  lemma KnownKeyKeys(entries: seq<ColorRecord>, os: seq<Occurrence>, o: Occurrence, k: nat)
    requires DistinctHexes(entries)
    requires forall h :: Find(entries, h).Some? <==> CountHex(os, h) > 0
    requires k < |entries| && entries[k].hex == o.hex
    ensures DistinctHexes(entries[k := Bumped(entries[k], o.usage)])
    ensures forall h :: Find(entries[k := Bumped(entries[k], o.usage)], h).Some? <==> CountHex(os + [o], h) > 0
  {
    var os' := os + [o];
    var e' := entries[k := Bumped(entries[k], o.usage)];
    assert os'[..|os'| - 1] == os;
    forall h
      ensures Find(e', h).Some? <==> CountHex(os', h) > 0
    {
      if CountHex(os', h) > 0 {
        if h == o.hex {
          assert e'[k].hex == h;
        } else {
          var j := Find(entries, h).value;
          assert e'[j].hex == h;
        }
      }
    }
  }

  lemma KnownKeyCounts(entries: seq<ColorRecord>, os: seq<Occurrence>, o: Occurrence, k: nat)
    requires DistinctHexes(entries)
    requires forall i :: 0 <= i < |entries| ==> entries[i].count == CountHex(os, entries[i].hex)
    requires TotalCount(entries) == |os|
    requires k < |entries| && entries[k].hex == o.hex
    ensures var e' := entries[k := Bumped(entries[k], o.usage)];
      && (forall i :: 0 <= i < |e'| ==> e'[i].count == CountHex(os + [o], e'[i].hex))
      && TotalCount(e') == |os + [o]|
  {
    var os' := os + [o];
    assert os'[..|os'| - 1] == os;
    TotalCountUpdate(entries, k, Bumped(entries[k], o.usage));
  }

  lemma KnownKeyUsage(entries: seq<ColorRecord>, os: seq<Occurrence>, o: Occurrence, k: nat)
    requires DistinctHexes(entries)
    requires forall i :: 0 <= i < |entries| ==> DistinctUsage(entries[i].usage)
    requires forall i, u :: 0 <= i < |entries| ==> (u in entries[i].usage <==> Occurrence(entries[i].hex, u) in os)
    requires k < |entries| && entries[k].hex == o.hex
    ensures var e' := entries[k := Bumped(entries[k], o.usage)];
      && (forall i :: 0 <= i < |e'| ==> DistinctUsage(e'[i].usage))
      && (forall i, u :: 0 <= i < |e'| ==> (u in e'[i].usage <==> Occurrence(e'[i].hex, u) in os + [o]))
  {
  }

  lemma TallyKnownKey(entries: seq<ColorRecord>, os: seq<Occurrence>, o: Occurrence)
    requires Summarises(entries, os)
    requires Find(entries, o.hex).Some?
    ensures Summarises(Tally(entries, o), os + [o])
  {
    var k := Find(entries, o.hex).value;
    assert Tally(entries, o) == entries[k := Bumped(entries[k], o.usage)];
    KnownKeyKeys(entries, os, o, k);
    KnownKeyCounts(entries, os, o, k);
    KnownKeyUsage(entries, os, o, k);
  }

  /** Tallying occurrences one by one builds their summary. */
  lemma {:induction false} TallyAllSummarises(os: seq<Occurrence>)
    ensures Summarises(TallyAll([], os), os)
  {
    if os == [] {
    } else {
      var pre := os[..|os| - 1];
      var o := os[|os| - 1];
      TallyAllSummarises(pre);
      assert pre + [o] == os;
      if Find(TallyAll([], pre), o.hex).None? {
        TallyNewKey(TallyAll([], pre), pre, o);
      } else {
        TallyKnownKey(TallyAll([], pre), pre, o);
      }
    }
  }

  /** Some occurrence of hex `a` comes before every occurrence of hex `b`. */
  ghost predicate SeenBefore(os: seq<Occurrence>, a: string, b: string) {
    exists p :: 0 <= p < |os| && os[p].hex == a && forall q :: 0 <= q <= p ==> os[q].hex != b
  }

  /** The records are in the order in which their hexes first occur in `os`. */
  ghost predicate FirstSeenOrder(rs: seq<ColorRecord>, os: seq<Occurrence>) {
    forall i, j :: 0 <= i < j < |rs| ==> SeenBefore(os, rs[i].hex, rs[j].hex)
  }

  lemma SeenBeforeExtend(os: seq<Occurrence>, o: Occurrence, a: string, b: string)
    requires SeenBefore(os, a, b)
    ensures SeenBefore(os + [o], a, b)
  {
    var p :| 0 <= p < |os| && os[p].hex == a && forall q :: 0 <= q <= p ==> os[q].hex != b;
    assert (os + [o])[p] == os[p];
    forall q | 0 <= q <= p
      ensures (os + [o])[q].hex != b
    {
      assert (os + [o])[q] == os[q];
    }
  }

  lemma {:induction false} CountHexWitness(os: seq<Occurrence>, h: string)
    requires CountHex(os, h) > 0
    ensures exists p :: 0 <= p < |os| && os[p].hex == h
  {
    var n := |os| - 1;
    if os[n].hex != h {
      CountHexWitness(os[..n], h);
      var p :| 0 <= p < n && os[..n][p].hex == h;
      assert os[p] == os[..n][p];
    }
  }

  /** One `colorSet.set` keeps the keys in first-seen order: a new key goes last. */
  lemma TallyFirstSeen(entries: seq<ColorRecord>, os: seq<Occurrence>, o: Occurrence)
    requires Summarises(entries, os)
    requires FirstSeenOrder(entries, os)
    ensures FirstSeenOrder(Tally(entries, o), os + [o])
  {
    var os' := os + [o];
    var e' := Tally(entries, o);
    match Find(entries, o.hex)
    case Some(k) =>
      assert e' == entries[k := Bumped(entries[k], o.usage)];
      forall i, j | 0 <= i < j < |e'|
        ensures SeenBefore(os', e'[i].hex, e'[j].hex)
      {
        SeenBeforeExtend(os, o, entries[i].hex, entries[j].hex);
      }
    case None =>
      assert e' == entries + [ColorRecord(o.hex, 1, [o.usage])];
      forall q | 0 <= q < |os|
        ensures os[q].hex != o.hex
      {
        if os[q].hex == o.hex {
          CountHexPositive(os, os[q]);
        }
      }
      forall i, j | 0 <= i < j < |e'|
        ensures SeenBefore(os', e'[i].hex, e'[j].hex)
      {
        if j < |entries| {
          assert e'[i] == entries[i] && e'[j] == entries[j];
          SeenBeforeExtend(os, o, entries[i].hex, entries[j].hex);
        } else {
          var h := entries[i].hex;
          assert e'[i] == entries[i];
          assert Find(entries, h).Some?;
          CountHexWitness(os, h);
          var p :| 0 <= p < |os| && os[p].hex == h;
          assert os'[p] == os[p];
          forall q | 0 <= q <= p
            ensures os'[q].hex != o.hex
          {
            assert os'[q] == os[q];
          }
        }
      }
  }

  /** The map's values come out in the order their hexes were first seen. */
  lemma {:induction false} TallyAllFirstSeen(os: seq<Occurrence>)
    ensures FirstSeenOrder(TallyAll([], os), os)
  {
    if os != [] {
      var pre := os[..|os| - 1];
      var o := os[|os| - 1];
      TallyAllFirstSeen(pre);
      TallyAllSummarises(pre);
      assert pre + [o] == os;
      TallyFirstSeen(TallyAll([], pre), pre, o);
    }
  }

  /** `(a, b) => b.count - a.count`: non-increasing counts. */
  predicate SortedByCount(rs: seq<ColorRecord>) {
    forall i, j :: 0 <= i < j < |rs| ==> rs[i].count >= rs[j].count
  }

  /** The records of `rs` with count `c`, in order. */
  function WithCount(rs: seq<ColorRecord>, c: nat): seq<ColorRecord> {
    if rs == [] then [] else WithCount(rs[..|rs| - 1], c) + (if rs[|rs| - 1].count == c then [rs[|rs| - 1]] else [])
  }

  /** Places `r` after every record of the sorted `s` whose count is at least `r.count`. */
  function Insert(s: seq<ColorRecord>, r: ColorRecord): (t: seq<ColorRecord>)
    ensures |t| == |s| + 1
    ensures multiset(t) == multiset(s) + multiset{r}
  {
    if s == [] then [r]
    else if s[|s| - 1].count >= r.count then s + [r]
    else
      assert s == s[..|s| - 1] + [s[|s| - 1]];
      Insert(s[..|s| - 1], r) + [s[|s| - 1]]
  }

  /** The stable sort by descending count, as insertion sort. */
  function SortByCount(rs: seq<ColorRecord>): (t: seq<ColorRecord>)
    ensures |t| == |rs|
    ensures multiset(t) == multiset(rs)
  {
    if rs == [] then []
    else
      assert rs == rs[..|rs| - 1] + [rs[|rs| - 1]];
      Insert(SortByCount(rs[..|rs| - 1]), rs[|rs| - 1])
  }

  lemma {:induction false} InsertMembers(s: seq<ColorRecord>, r: ColorRecord)
    ensures forall x :: x in Insert(s, r) ==> x in s || x == r
  {
    if s != [] && s[|s| - 1].count < r.count {
      InsertMembers(s[..|s| - 1], r);
    }
  }

  lemma {:induction false} InsertSorted(s: seq<ColorRecord>, r: ColorRecord)
    requires SortedByCount(s)
    ensures SortedByCount(Insert(s, r))
  {
    if s != [] && s[|s| - 1].count < r.count {
      var pre := s[..|s| - 1];
      var last := s[|s| - 1];
      InsertSorted(pre, r);
      InsertMembers(pre, r);
      var t := Insert(pre, r);
      assert forall x :: x in pre ==> x.count >= last.count;
      assert forall i :: 0 <= i < |t| ==> t[i].count >= last.count;
      assert Insert(s, r) == t + [last];
    }
  }

  lemma {:induction false} InsertDistinct(s: seq<ColorRecord>, r: ColorRecord)
    requires DistinctHexes(s)
    requires forall i :: 0 <= i < |s| ==> s[i].hex != r.hex
    ensures DistinctHexes(Insert(s, r))
  {
    if s != [] && s[|s| - 1].count < r.count {
      var pre := s[..|s| - 1];
      var last := s[|s| - 1];
      InsertDistinct(pre, r);
      InsertMembers(pre, r);
      var t := Insert(pre, r);
      assert forall x :: x in pre ==> x.hex != last.hex;
      assert forall i :: 0 <= i < |t| ==> t[i].hex != last.hex;
      assert Insert(s, r) == t + [last];
    }
  }

  lemma {:induction false} InsertStable(s: seq<ColorRecord>, r: ColorRecord, c: nat)
    ensures WithCount(Insert(s, r), c) == WithCount(s, c) + (if r.count == c then [r] else [])
  {
    if s == [] {
      assert [r][..0] == [];
    } else if s[|s| - 1].count >= r.count {
      assert (s + [r])[..|s|] == s;
    } else {
      var pre := s[..|s| - 1];
      InsertStable(pre, r, c);
      var t := Insert(pre, r);
      assert (t + [s[|s| - 1]])[..|t|] == t;
    }
  }

  lemma {:induction false} InsertTotal(s: seq<ColorRecord>, r: ColorRecord)
    ensures TotalCount(Insert(s, r)) == TotalCount(s) + r.count
  {
    if s == [] {
      assert [r][..0] == [];
    } else if s[|s| - 1].count >= r.count {
      assert (s + [r])[..|s|] == s;
    } else {
      var pre := s[..|s| - 1];
      InsertTotal(pre, r);
      var t := Insert(pre, r);
      assert (t + [s[|s| - 1]])[..|t|] == t;
    }
  }

  lemma {:induction false} SortByCountSpec(rs: seq<ColorRecord>)
    ensures SortedByCount(SortByCount(rs))
    ensures forall c: nat :: WithCount(SortByCount(rs), c) == WithCount(rs, c)
    ensures TotalCount(SortByCount(rs)) == TotalCount(rs)
  {
    if rs != [] {
      SortByCountSpec(rs[..|rs| - 1]);
      InsertSorted(SortByCount(rs[..|rs| - 1]), rs[|rs| - 1]);
      InsertTotal(SortByCount(rs[..|rs| - 1]), rs[|rs| - 1]);
      forall c: nat
        ensures WithCount(SortByCount(rs), c) == WithCount(rs, c)
      {
        InsertStable(SortByCount(rs[..|rs| - 1]), rs[|rs| - 1], c);
      }
    }
  }

  lemma {:induction false} WithCountMembers(rs: seq<ColorRecord>, c: nat)
    ensures forall x :: x in WithCount(rs, c) ==> x in rs && x.count == c
  {
    if rs != [] {
      WithCountMembers(rs[..|rs| - 1], c);
    }
  }

  /** Picking the records of one count keeps an order by first occurrence. */
  lemma {:induction false} WithCountKeepsOrder(rs: seq<ColorRecord>, os: seq<Occurrence>, c: nat)
    requires FirstSeenOrder(rs, os)
    ensures FirstSeenOrder(WithCount(rs, c), os)
  {
    if rs != [] {
      var n := |rs| - 1;
      var pre := rs[..n];
      assert FirstSeenOrder(pre, os) by {
        forall i, j | 0 <= i < j < |pre|
          ensures SeenBefore(os, pre[i].hex, pre[j].hex)
        {
          assert pre[i] == rs[i] && pre[j] == rs[j];
        }
      }
      WithCountKeepsOrder(pre, os, c);
      WithCountMembers(pre, c);
      var w := WithCount(pre, c);
      if rs[n].count == c {
        forall i, j | 0 <= i < j < |w + [rs[n]]|
          ensures SeenBefore(os, (w + [rs[n]])[i].hex, (w + [rs[n]])[j].hex)
        {
          if j == |w| {
            assert w[i] in pre;
            var k :| 0 <= k < n && pre[k] == w[i];
            assert rs[k] == w[i];
          } else {
            assert (w + [rs[n]])[i] == w[i] && (w + [rs[n]])[j] == w[j];
          }
        }
      }
    }
  }

  /** Records of equal count in `rs` appear in `rs` as in their per-count lists. */
  lemma {:induction false} EqualCountsInOrder(rs: seq<ColorRecord>, os: seq<Occurrence>)
    requires forall c: nat :: FirstSeenOrder(WithCount(rs, c), os)
    ensures forall i, j :: 0 <= i < j < |rs| && rs[i].count == rs[j].count ==> SeenBefore(os, rs[i].hex, rs[j].hex)
  {
    if rs != [] {
      var n := |rs| - 1;
      var pre := rs[..n];
      forall c: nat
        ensures FirstSeenOrder(WithCount(pre, c), os)
      {
        var w := WithCount(pre, c);
        var v := WithCount(rs, c);
        assert v == w + (if rs[n].count == c then [rs[n]] else []);
        forall i, j | 0 <= i < j < |w|
          ensures SeenBefore(os, w[i].hex, w[j].hex)
        {
          assert v[i] == w[i] && v[j] == w[j];
        }
      }
      EqualCountsInOrder(pre, os);
      forall i, j | 0 <= i < j < |rs| && rs[i].count == rs[j].count
        ensures SeenBefore(os, rs[i].hex, rs[j].hex)
      {
        if j < n {
          assert pre[i] == rs[i] && pre[j] == rs[j];
        } else {
          var c := rs[n].count;
          var w := WithCount(pre, c);
          var v := WithCount(rs, c);
          assert v == w + [rs[n]];
          WithCountHas(pre, c, i);
          var k :| 0 <= k < |w| && w[k] == rs[i];
          assert v[k] == rs[i] && v[|w|] == rs[n];
        }
      }
    }
  }

  lemma {:induction false} WithCountHas(rs: seq<ColorRecord>, c: nat, i: nat)
    requires i < |rs| && rs[i].count == c
    ensures exists k :: 0 <= k < |WithCount(rs, c)| && WithCount(rs, c)[k] == rs[i]
  {
    var n := |rs| - 1;
    var w := WithCount(rs[..n], c);
    if i < n {
      WithCountHas(rs[..n], c, i);
      var k :| 0 <= k < |w| && w[k] == rs[..n][i];
      assert WithCount(rs, c)[k] == w[k];
    } else {
      assert WithCount(rs, c)[|w|] == rs[n];
    }
  }

  /** Sorting records with distinct hexes keeps them distinct. */
  lemma {:induction false} SortByCountDistinct(rs: seq<ColorRecord>)
    requires DistinctHexes(rs)
    ensures DistinctHexes(SortByCount(rs))
  {
    if rs != [] {
      var pre := rs[..|rs| - 1];
      var last := rs[|rs| - 1];
      SortByCountDistinct(pre);
      var t := SortByCount(pre);
      forall i | 0 <= i < |t|
        ensures t[i].hex != last.hex
      {
        assert t[i] in multiset(pre);
        var k :| 0 <= k < |pre| && pre[k] == t[i];
        assert rs[k] == t[i];
      }
      InsertDistinct(t, last);
    }
  }
}
