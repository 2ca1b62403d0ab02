/** The activity feed: day sections that together are one newest-first sort. */
module Activity {
  import opened Sorting

  // ---- strings in code-unit order ----

  predicate Less(a: string, b: string) {
    if b == "" then false
    else if a == "" then true
    else a[0] < b[0] || (a[0] == b[0] && Less(a[1..], b[1..]))
  }

  lemma {:induction false} LessAsymmetric(a: string, b: string)
    ensures Less(a, b) ==> !Less(b, a)
  {
    if a != "" && b != "" { LessAsymmetric(a[1..], b[1..]); }
  }

  lemma {:induction false} LessSplits(a: string, b: string, c: string)
    ensures Less(a, c) ==> Less(a, b) || Less(b, c)
  {
    if a != "" && b != "" && c != "" { LessSplits(a[1..], b[1..], c[1..]); }
  }

  lemma {:induction false} LessTotal(a: string, b: string)
    ensures Less(a, b) || Less(b, a) || a == b
  {
    if a != "" && b != "" {
      LessTotal(a[1..], b[1..]);
      assert a == [a[0]] + a[1..] && b == [b[0]] + b[1..];
    }
  }

  function Prefix(s: string, n: nat): string {
    if |s| <= n then s else s[..n]
  }

  /** Cutting two strings at the same length never swaps their order. */
  lemma {:induction false} PrefixMonotone(a: string, b: string, n: nat)
    ensures Less(Prefix(a, n), Prefix(b, n)) ==> Less(a, b)
    decreases n
  {
    if n > 0 && a != "" && b != "" {
      PrefixMonotone(a[1..], b[1..], n - 1);
      assert Prefix(a, n) == [a[0]] + Prefix(a[1..], n - 1);
      assert Prefix(b, n) == [b[0]] + Prefix(b[1..], n - 1);
    }
  }

  /** At the first place two texts part, the one that ends there, or has the lesser character, comes first. */
  lemma {:induction false} LessIff(a: string, b: string)
    ensures Less(a, b) <==>
      exists n :: 0 <= n < |b| && n <= |a| && a[..n] == b[..n] && (n == |a| || a[n] < b[n])
    decreases |a|
  {
    forall n | 0 < n <= |b| && n <= |a| && a[..n] == b[..n] ensures a[0] == b[0] {
      assert a[..n][0] == b[..n][0];
    }
    if a == "" || b == "" || a[0] != b[0] {
      assert a[..0] == b[..0];
    } else {
      LessIff(a[1..], b[1..]);
      if n :| 0 <= n < |b| && n <= |a| && a[..n] == b[..n] && (n == |a| || a[n] < b[n]) {
        assert n > 0 && a[1..][..n - 1] == a[..n][1..] && b[1..][..n - 1] == b[..n][1..];
      }
      if n :| 0 <= n < |b[1..]| && n <= |a[1..]| && a[1..][..n] == b[1..][..n]
              && (n == |a[1..]| || a[1..][n] < b[1..][n]) {
        assert a[..n + 1] == [a[0]] + a[1..][..n] && b[..n + 1] == [b[0]] + b[1..][..n];
        assert n + 1 == |a| || a[n + 1] < b[n + 1];
      }
    }
  }

  // ---- the feed ----

  /** An entry, as far as the grouping reads it. */
  datatype Entry = Entry(id: string, createdAt: string, rest: nat)

  datatype Section = Section(title: string, data: seq<Entry>)

  const DAY_LENGTH := 10

  function DayKey(iso: string): string {
    Prefix(iso, DAY_LENGTH)
  }

  function DayOf(e: Entry): string {
    DayKey(e.createdAt)
  }

  predicate NewerEntry(a: Entry, b: Entry) {
    if a.createdAt != b.createdAt then Less(b.createdAt, a.createdAt)
    else a.id != b.id && Less(b.id, a.id)
  }

  /** The comparator, as a value a sort can take. */
  const BY_NEWEST_FIRST: (Entry, Entry) -> bool := (a: Entry, b: Entry) => NewerEntry(a, b)
  const BY_NEWEST_DAY: (Section, Section) -> bool := (a: Section, b: Section) => Less(b.title, a.title)

  lemma NewestFirstIsOrder()
    ensures IsOrder(BY_NEWEST_FIRST)
  {
    forall a: Entry, b: Entry ensures BY_NEWEST_FIRST(a, b) ==> !BY_NEWEST_FIRST(b, a) {
      LessAsymmetric(a.createdAt, b.createdAt);
      LessAsymmetric(a.id, b.id);
    }
    forall a: Entry, b: Entry, c: Entry
      ensures BY_NEWEST_FIRST(a, c) ==> BY_NEWEST_FIRST(a, b) || BY_NEWEST_FIRST(b, c)
    {
      LessSplits(c.createdAt, b.createdAt, a.createdAt);
      LessSplits(c.id, b.id, a.id);
      LessTotal(a.createdAt, b.createdAt);
      LessTotal(b.createdAt, c.createdAt);
    }
  }

  lemma NewestDayIsOrder()
    ensures IsOrder(BY_NEWEST_DAY)
  {
    forall a: Section, b: Section ensures BY_NEWEST_DAY(a, b) ==> !BY_NEWEST_DAY(b, a) {
      LessAsymmetric(a.title, b.title);
    }
    forall a: Section, b: Section, c: Section
      ensures BY_NEWEST_DAY(a, c) ==> BY_NEWEST_DAY(a, b) || BY_NEWEST_DAY(b, c)
    {
      LessSplits(c.title, b.title, a.title);
    }
  }

  /** The entries of one day, in the order they were given. */
  function OnDay(entries: seq<Entry>, day: string): (r: seq<Entry>)
    ensures forall e :: e in r <==> e in entries && DayOf(e) == day
  {
    if entries == [] then []
    else
      assert forall e :: e in entries <==> e == entries[0] || e in entries[1..];
      (if DayOf(entries[0]) == day then [entries[0]] else []) + OnDay(entries[1..], day)
  }

  function Concat(sections: seq<Section>): seq<Entry> {
    if sections == [] then [] else sections[0].data + Concat(sections[1..])
  }

  /** Every day of the input once, newest day first, each holding its own entries newest first. */
  ghost predicate AreSectionsOf(sections: seq<Section>, entries: seq<Entry>) {
    && (forall i, j :: 0 <= i < j < |sections| ==> Less(sections[j].title, sections[i].title))
    && (forall i :: 0 <= i < |sections| ==>
          sections[i].data == Sort(BY_NEWEST_FIRST, OnDay(entries, sections[i].title)))
    && (forall e :: e in entries ==> exists i :: 0 <= i < |sections| && sections[i].title == DayOf(e))
    && (forall i :: 0 <= i < |sections| ==> sections[i].data != [])
  }

  lemma {:induction false} OnDaySnoc(entries: seq<Entry>, e: Entry, day: string)
    ensures OnDay(entries + [e], day) == OnDay(entries, day) + (if DayOf(e) == day then [e] else [])
  {
    if entries == [] {
      assert entries + [e] == [e];
    } else {
      assert (entries + [e])[1..] == entries[1..] + [e];
      OnDaySnoc(entries[1..], e, day);
    }
  }

  /** Every day of the entries has its bucket, in the order the days first appear. */
  ghost predicate AreBucketsOf(buckets: map<string, seq<Entry>>, order: seq<string>, entries: seq<Entry>) {
    && Distinct(order)
    && (forall k :: k in order <==> k in buckets)
    && (forall e :: e in entries ==> DayOf(e) in buckets)
    && (forall k :: k in buckets ==> buckets[k] == OnDay(entries, k) && buckets[k] != [])
  }

  method FillBuckets(entries: seq<Entry>) returns (buckets: map<string, seq<Entry>>, order: seq<string>)
    ensures AreBucketsOf(buckets, order, entries)
  {
    buckets, order := map[], [];
    for i := 0 to |entries|
      invariant AreBucketsOf(buckets, order, entries[..i])
    {
      var entry := entries[i];
      var key := DayOf(entry);
      assert entries[..i + 1] == entries[..i] + [entry];
      ghost var was := buckets;
      if key in buckets {
        buckets := buckets[key := buckets[key] + [entry]];
      } else {
        assert [] + [entry] == [entry];
        buckets := buckets[key := [entry]];
        order := order + [key];
      }
      BucketsGrow(was, buckets, entries[..i], entry);
    }
    assert entries[..|entries|] == entries;
  }

  lemma BucketsGrow(was: map<string, seq<Entry>>, now: map<string, seq<Entry>>, entries: seq<Entry>, entry: Entry)
    requires forall e :: e in entries ==> DayOf(e) in was
    requires forall k :: k in was ==> was[k] == OnDay(entries, k) && was[k] != []
    requires now == was[DayOf(entry) := (if DayOf(entry) in was then was[DayOf(entry)] else []) + [entry]]
    ensures forall e :: e in entries + [entry] ==> DayOf(e) in now
    ensures forall k :: k in now ==> now[k] == OnDay(entries + [entry], k) && now[k] != []
  {
    forall k | k in now ensures now[k] == OnDay(entries + [entry], k) && now[k] != [] {
      OnDaySnoc(entries, entry, k);
      if k !in was { NothingOnDay(entries, k); }
    }
  }

  lemma {:induction false} NothingOnDay(entries: seq<Entry>, day: string)
    requires forall e :: e in entries ==> DayOf(e) != day
    ensures OnDay(entries, day) == []
  {
    if entries != [] {
      assert entries[0] in entries;
      NothingOnDay(entries[1..], day);
    }
  }

  /** Buckets filled in one pass, each then sorted, and the sections sorted by day. */
  method GroupIntoSections(entries: seq<Entry>) returns (sections: seq<Section>)
    ensures AreSectionsOf(sections, entries)
    ensures Concat(sections) == Sort(BY_NEWEST_FIRST, entries)
    ensures forall i, e :: 0 <= i < |sections| && e in sections[i].data ==> IsTheDayOf(sections[i].title, e)
    ensures forall i :: 0 <= i < |sections| ==> Descends(sections[i].data)
  {
    var buckets, order := FillBuckets(entries);
    var filled := SortBuckets(buckets, order);
    sections := Sort(BY_NEWEST_DAY, filled);
    SortedSections(filled, sections, buckets, order, entries);
    SectionsAreOneSort(sections, entries);
    SectionsAreDays(sections, entries);
    SectionsDescend(sections, entries);
  }

  /** Never a later timestamp below an earlier one, nor under one timestamp a greater id below a lesser. */
  predicate Descends(data: seq<Entry>) {
    forall i, j :: 0 <= i < j < |data| ==>
      !Less(data[i].createdAt, data[j].createdAt)
      && (data[i].createdAt == data[j].createdAt ==> !Less(data[i].id, data[j].id))
  }

  lemma SectionsDescend(sections: seq<Section>, entries: seq<Entry>)
    requires AreSectionsOf(sections, entries)
    ensures forall i :: 0 <= i < |sections| ==> Descends(sections[i].data)
  {
    NewestFirstIsOrder();
    forall i | 0 <= i < |sections| ensures Descends(sections[i].data) {
      var data := sections[i].data;
      SortIsStable(BY_NEWEST_FIRST, OnDay(entries, sections[i].title));
      forall j, k | 0 <= j < k < |data|
        ensures !Less(data[j].createdAt, data[k].createdAt)
        ensures data[j].createdAt == data[k].createdAt ==> !Less(data[j].id, data[k].id)
      {
        assert !BY_NEWEST_FIRST(data[k], data[j]);
        LessAsymmetric(data[j].createdAt, data[k].createdAt);
        LessAsymmetric(data[j].id, data[k].id);
      }
    }
  }

  /** The calendar day an ISO timestamp begins with, as `2026-01-31`; a shorter text is its own day. */
  predicate IsTheDayOf(title: string, e: Entry) {
    title == if |e.createdAt| <= 10 then e.createdAt else e.createdAt[..10]
  }

  lemma SectionsAreDays(sections: seq<Section>, entries: seq<Entry>)
    requires AreSectionsOf(sections, entries)
    ensures forall i, e :: 0 <= i < |sections| && e in sections[i].data ==> IsTheDayOf(sections[i].title, e)
  {
    forall i, e | 0 <= i < |sections| && e in sections[i].data ensures IsTheDayOf(sections[i].title, e) {
      SortMembers(BY_NEWEST_FIRST, OnDay(entries, sections[i].title), e);
    }
  }

  method SortBuckets(buckets: map<string, seq<Entry>>, order: seq<string>) returns (filled: seq<Section>)
    requires forall k :: k in order ==> k in buckets
    ensures |filled| == |order|
    ensures forall j :: 0 <= j < |order| ==>
              order[j] in buckets && filled[j] == Section(order[j], Sort(BY_NEWEST_FIRST, buckets[order[j]]))
  {
    filled := [];
    for i := 0 to |order|
      invariant |filled| == i
      invariant forall j :: 0 <= j < i ==>
                  order[j] in buckets && filled[j] == Section(order[j], Sort(BY_NEWEST_FIRST, buckets[order[j]]))
    {
      assert order[i] in order;
      filled := filled + [Section(order[i], Sort(BY_NEWEST_FIRST, buckets[order[i]]))];
    }
  }

  predicate Distinct(keys: seq<string>) {
    forall i, j :: 0 <= i < j < |keys| ==> keys[i] != keys[j]
  }

  lemma SortedSections(filled: seq<Section>, sections: seq<Section>, buckets: map<string, seq<Entry>>,
                       order: seq<string>,
                       entries: seq<Entry>)
    requires sections == Sort(BY_NEWEST_DAY, filled)
    requires AreBucketsOf(buckets, order, entries) && |filled| == |order|
    requires forall j :: 0 <= j < |order| ==>
               order[j] in buckets && filled[j] == Section(order[j], Sort(BY_NEWEST_FIRST, buckets[order[j]]))
    ensures AreSectionsOf(sections, entries)
  {
    forall i | 0 <= i < |sections|
      ensures sections[i].data == Sort(BY_NEWEST_FIRST, OnDay(entries, sections[i].title)) && sections[i].data != []
    {
      SortMembers(BY_NEWEST_DAY, filled, sections[i]);
      var j :| 0 <= j < |filled| && filled[j] == sections[i];
      assert order[j] in order;
    }
    forall e | e in entries ensures exists i :: 0 <= i < |sections| && sections[i].title == DayOf(e) {
      var j :| 0 <= j < |order| && order[j] == DayOf(e);
      TitleKept(filled, sections, j);
    }
    DescendingTitles(filled, sections);
  }

  lemma TitleKept(filled: seq<Section>, sections: seq<Section>, j: nat)
    requires sections == Sort(BY_NEWEST_DAY, filled) && j < |filled|
    ensures exists i :: 0 <= i < |sections| && sections[i].title == filled[j].title
  {
    SortMembers(BY_NEWEST_DAY, filled, filled[j]);
    var i :| 0 <= i < |sections| && sections[i] == filled[j];
  }

  lemma DescendingTitles(filled: seq<Section>, sections: seq<Section>)
    requires sections == Sort(BY_NEWEST_DAY, filled)
    requires forall k, l :: 0 <= k < l < |filled| ==> filled[k].title != filled[l].title
    ensures forall i, j :: 0 <= i < j < |sections| ==> Less(sections[j].title, sections[i].title)
  {
    NewestDayIsOrder();
    SortIsStable(BY_NEWEST_DAY, filled);
    forall i, j | 0 <= i < j < |sections| ensures Less(sections[j].title, sections[i].title) {
      TitlesApart(filled, sections, i, j);
      LessTotal(sections[i].title, sections[j].title);
      assert !BY_NEWEST_DAY(sections[j], sections[i]);
    }
  }

  /** Sections with distinct titles are never tied, so sorting leaves them distinct. */
  lemma TitlesApart(filled: seq<Section>, sections: seq<Section>, i: nat, j: nat)
    requires sections == Sort(BY_NEWEST_DAY, filled) && i < j < |sections|
    requires forall k, l :: 0 <= k < l < |filled| ==> filled[k].title != filled[l].title
    ensures sections[i].title != sections[j].title
  {
    NewestDayIsOrder();
    SortIsStable(BY_NEWEST_DAY, filled);
    if sections[i].title == sections[j].title {
      TwoTies(sections, i, j);
      OneTie(filled, sections[i]);
      assert false;
    }
  }

  lemma {:induction false} TwoTies(sections: seq<Section>, i: nat, j: nat)
    requires i < j < |sections| && sections[i].title == sections[j].title
    ensures |Ties(BY_NEWEST_DAY, sections[i], sections)| >= 2
  {
    var t := sections[i];
    LessAsymmetric(t.title, t.title);
    var a, b := sections[..j], sections[j..];
    assert sections == a + b;
    TiesJoin(BY_NEWEST_DAY, t, a, b);
    TiesMembers(BY_NEWEST_DAY, t, a, a[i]);
    TiesMembers(BY_NEWEST_DAY, t, b, b[0]);
    assert sections[i] == a[i] && a[i] in Ties(BY_NEWEST_DAY, t, a);
    assert b[0] in Ties(BY_NEWEST_DAY, t, b);
  }

  lemma {:induction false} OneTie(filled: seq<Section>, t: Section)
    requires forall k, l :: 0 <= k < l < |filled| ==> filled[k].title != filled[l].title
    ensures |Ties(BY_NEWEST_DAY, t, filled)| <= 1
  {
    if filled != [] {
      OneTie(filled[1..], t);
      var rest := Ties(BY_NEWEST_DAY, t, filled[1..]);
      if rest != [] {
        TiesMembers(BY_NEWEST_DAY, t, filled[1..], rest[0]);
        var k :| 0 <= k < |filled[1..]| && filled[1..][k] == rest[0];
        LessTotal(t.title, rest[0].title);
        LessTotal(t.title, filled[0].title);
        assert filled[0].title != filled[k + 1].title;
      }
    }
  }

  // ---- the sections end to end ----

  lemma TiedIsSame(a: Entry, b: Entry)
    ensures Tied(BY_NEWEST_FIRST, a, b) <==> a.createdAt == b.createdAt && a.id == b.id
  {
    LessTotal(a.createdAt, b.createdAt);
    LessTotal(a.id, b.id);
  }

  lemma {:induction false} TiesOnDay(entries: seq<Entry>, t: Entry, day: string)
    ensures Ties(BY_NEWEST_FIRST, t, OnDay(entries, day))
         == if day == DayOf(t) then Ties(BY_NEWEST_FIRST, t, entries) else []
  {
    if entries != [] {
      TiesOnDay(entries[1..], t, day);
      TiedIsSame(t, entries[0]);
      var rest := OnDay(entries[1..], day);
      if DayOf(entries[0]) == day {
        assert ([entries[0]] + rest)[1..] == rest;
        assert OnDay(entries, day) == [entries[0]] + rest;
      } else {
        assert OnDay(entries, day) == rest;
      }
    }
  }

  /** A run of sections, newest first, each its own day's sort. */
  ghost predicate Descending(sections: seq<Section>, entries: seq<Entry>) {
    && (forall i, j :: 0 <= i < j < |sections| ==> Less(sections[j].title, sections[i].title))
    && (forall i :: 0 <= i < |sections| ==>
          sections[i].data == Sort(BY_NEWEST_FIRST, OnDay(entries, sections[i].title)))
  }

  lemma SectionTies(entries: seq<Entry>, t: Entry, day: string)
    ensures Ties(BY_NEWEST_FIRST, t, Sort(BY_NEWEST_FIRST, OnDay(entries, day)))
         == if day == DayOf(t) then Ties(BY_NEWEST_FIRST, t, entries) else []
  {
    NewestFirstIsOrder();
    SortIsStable(BY_NEWEST_FIRST, OnDay(entries, day));
    TiesOnDay(entries, t, day);
  }

  predicate HasDay(sections: seq<Section>, day: string) {
    sections != [] && (sections[0].title == day || HasDay(sections[1..], day))
  }

  lemma {:induction false} HasDayIff(sections: seq<Section>, day: string)
    ensures HasDay(sections, day) <==> exists i :: 0 <= i < |sections| && sections[i].title == day
  {
    if sections != [] {
      HasDayIff(sections[1..], day);
      forall i | 0 <= i < |sections[1..]| ensures sections[1..][i] == sections[i + 1] {}
    }
  }

  lemma FirstDayOnly(sections: seq<Section>, entries: seq<Entry>)
    requires sections != [] && Descending(sections, entries)
    ensures !HasDay(sections[1..], sections[0].title)
  {
    HasDayIff(sections[1..], sections[0].title);
    forall i | 0 <= i < |sections[1..]| ensures sections[1..][i].title != sections[0].title {
      assert Less(sections[i + 1].title, sections[0].title);
      LessAsymmetric(sections[i + 1].title, sections[0].title);
    }
  }

  lemma {:induction false} ConcatTies(sections: seq<Section>, entries: seq<Entry>, t: Entry)
    requires Descending(sections, entries)
    ensures Ties(BY_NEWEST_FIRST, t, Concat(sections))
         == if HasDay(sections, DayOf(t)) then Ties(BY_NEWEST_FIRST, t, entries) else []
  {
    if sections != [] {
      SectionTies(entries, t, sections[0].title);
      TiesJoin(BY_NEWEST_FIRST, t, sections[0].data, Concat(sections[1..]));
      ConcatTies(sections[1..], entries, t);
      FirstDayOnly(sections, entries);
    }
  }

  lemma {:induction false} ConcatDays(sections: seq<Section>, entries: seq<Entry>)
    requires Descending(sections, entries)
    ensures forall e :: e in Concat(sections) ==> exists i :: 0 <= i < |sections| && sections[i].title == DayOf(e)
  {
    if sections != [] {
      var rest := sections[1..];
      ConcatDays(rest, entries);
      forall e | e in Concat(sections) ensures exists i :: 0 <= i < |sections| && sections[i].title == DayOf(e) {
        if e in Concat(rest) {
          var i :| 0 <= i < |rest| && rest[i].title == DayOf(e);
          assert sections[i + 1].title == DayOf(e);
        } else {
          SortMembers(BY_NEWEST_FIRST, OnDay(entries, sections[0].title), e);
          assert sections[0].title == DayOf(e);
        }
      }
    }
  }

  /** A later day's entry never belongs ahead of an earlier day's: cutting to the day keeps the order. */
  lemma LaterDayFirst(x: Entry, y: Entry)
    requires Less(DayOf(y), DayOf(x))
    ensures !BY_NEWEST_FIRST(y, x)
  {
    PrefixMonotone(y.createdAt, x.createdAt, DAY_LENGTH);
    LessAsymmetric(y.createdAt, x.createdAt);
  }

  lemma {:induction false} ConcatSorted(sections: seq<Section>, entries: seq<Entry>)
    requires Descending(sections, entries)
    ensures Sorted(BY_NEWEST_FIRST, Concat(sections))
  {
    if sections != [] {
      var first, rest := sections[0], sections[1..];
      NewestFirstIsOrder();
      SortIsStable(BY_NEWEST_FIRST, OnDay(entries, first.title));
      ConcatSorted(rest, entries);
      ConcatDays(rest, entries);
      forall x, y | x in first.data && y in Concat(rest) ensures !BY_NEWEST_FIRST(y, x) {
        var i :| 0 <= i < |rest| && rest[i].title == DayOf(y);
        assert rest[i] == sections[i + 1] && Less(sections[i + 1].title, sections[0].title);
        SortMembers(BY_NEWEST_FIRST, OnDay(entries, first.title), x);
        LaterDayFirst(x, y);
      }
    }
  }

  /** However the entries arrive, the sections end to end are the stable newest-first sort of them all. */
  lemma SectionsAreOneSort(sections: seq<Section>, entries: seq<Entry>)
    requires AreSectionsOf(sections, entries)
    ensures Concat(sections) == Sort(BY_NEWEST_FIRST, entries)
  {
    NewestFirstIsOrder();
    SortIsStable(BY_NEWEST_FIRST, entries);
    ConcatSorted(sections, entries);
    forall t ensures Ties(BY_NEWEST_FIRST, t, Concat(sections)) == Ties(BY_NEWEST_FIRST, t, entries) {
      ConcatTies(sections, entries, t);
      NoDayNoTies(sections, entries, t);
    }
    StableIsUnique(BY_NEWEST_FIRST, Concat(sections), Sort(BY_NEWEST_FIRST, entries));
  }

  lemma NoDayNoTies(sections: seq<Section>, entries: seq<Entry>, t: Entry)
    requires AreSectionsOf(sections, entries)
    ensures HasDay(sections, DayOf(t)) || Ties(BY_NEWEST_FIRST, t, entries) == []
  {
    var ties := Ties(BY_NEWEST_FIRST, t, entries);
    HasDayIff(sections, DayOf(t));
    if ties != [] {
      TiesMembers(BY_NEWEST_FIRST, t, entries, ties[0]);
      TiedIsSame(t, ties[0]);
    }
  }
}
