/** The Helm summary: the latest revision of every release. */
module Helm {
  import opened Basics
  import opened Decimal

  const MAX_RECORDS := 128
  const MAX_RELEASES := 32
  const STATUSES := {
    "deployed", "superseded", "failed", "pending-install", "pending-upgrade", "pending-rollback", "uninstalled", "uninstalling"}

  /** What is read of one item. A field that is absent or no text is None. */
  datatype Item = Item(
    shaped: bool, owner: Option<string>, namespace: Option<string>, name: Option<string>, status: Option<string>,
    version: Option<string>)

  /** The list: its fields, its continue token, and its items. */
  datatype Listing = Listing(shaped: bool, token: Option<string>, items: Option<seq<Item>>)

  datatype Release = Release(namespace: string, name: string, revision: nat, status: string)

  type Key = (string, string)

  function KeyOf(r: Release): Key {
    (r.namespace, r.name)
  }

  function IdOf(r: Release): (string, string, nat) {
    (r.namespace, r.name, r.revision)
  }

  predicate IsAlnum(c: char) {
    'a' <= c <= 'z' || '0' <= c <= '9'
  }

  /** The pattern of a name, for the whole text. */
  predicate IsName(text: string) {
    && 1 <= |text| <= 63 && IsAlnum(text[0]) && IsAlnum(text[|text| - 1])
    && forall c <- text :: IsAlnum(c) || c == '-'
  }

  /** The checks on one item, and what it says. */
  function Read(item: Item): Option<Release> {
    if !item.shaped || item.owner != Some("helm") then None
    else if item.namespace.None? || item.name.None? || !IsName(item.namespace.value) || !IsName(item.name.value) then None
    else if item.status.None? || item.status.value !in STATUSES || item.version.None? then None
    else
      var version := item.version.value;
      if !Numeral(version) || |version| > 6 || Value(version) < 1 || Print(Value(version)) != version then None
      else Some(Release(item.namespace.value, item.name.value, Value(version), item.status.value))
  }

  predicate Pending(r: Release) {
    "pending-" <= r.status
  }

  // -------------------------------------------------------------- order

  predicate Below(a: string, b: string) {
    b != "" && (a == "" || a[0] < b[0] || (a[0] == b[0] && Below(a[1..], b[1..])))
  }

  predicate Precedes(a: Key, b: Key) {
    Below(a.0, b.0) || (a.0 == b.0 && Below(a.1, b.1))
  }

  lemma {:induction false} BelowOrder(a: string, b: string, c: string)
    ensures !Below(a, a)
    ensures a == b || Below(a, b) || Below(b, a)
    ensures Below(a, b) && Below(b, c) ==> Below(a, c)
    decreases |a|
  {
    if a != "" {
      BelowOrder(a[1..], if b == "" then "" else b[1..], if c == "" then "" else c[1..]);
      if b != "" && a[0] == b[0] && a[1..] == b[1..] {
        assert a == [a[0]] + a[1..] && b == [b[0]] + b[1..];
      }
    }
  }

  /** A strict total order. */
  lemma PrecedesOrder(a: Key, b: Key, c: Key)
    ensures !Precedes(a, a)
    ensures a == b || Precedes(a, b) || Precedes(b, a)
    ensures Precedes(a, b) && Precedes(b, c) ==> Precedes(a, c)
  {
    BelowOrder(a.0, b.0, c.0);
    BelowOrder(a.1, b.1, c.1);
    hide Below;
  }

  ghost predicate Sorted(releases: seq<Release>) {
    forall i, j | 0 <= i < j < |releases| :: Precedes(KeyOf(releases[i]), KeyOf(releases[j]))
  }

  // ------------------------------------------------------------ the summary

  datatype Summary = Summary(releases: seq<Release>, failed: nat, pending: nat, count: nat)

  /** The newest revision of its release. */
  ghost predicate Newest(records: set<Release>, r: Release) {
    r in records && forall x <- records :: KeyOf(x) == KeyOf(r) ==> x.revision <= r.revision
  }

  ghost predicate Summarises(records: set<Release>, s: Summary) {
    && Sorted(s.releases)
    && (forall r :: r in s.releases <==> Newest(records, r))
    && s.failed == |set r <- records | r.status == "failed"|
    && s.pending == |set r <- s.releases | Pending(r)|
    && s.count == |records|
  }

  ghost predicate AllRead(items: seq<Item>) {
    forall item <- items :: Read(item).Some?
  }

  ghost function Records(items: seq<Item>): set<Release>
    requires AllRead(items)
  {
    set item <- items :: Read(item).value
  }

  /** No two items are about the same revision. */
  ghost predicate Distinct(items: seq<Item>)
    requires AllRead(items)
  {
    forall i, j | 0 <= i < j < |items| :: IdOf(Read(items[i]).value) != IdOf(Read(items[j]).value)
  }

  ghost function KeysOf(records: set<Release>): set<Key> {
    set r <- records :: KeyOf(r)
  }

  ghost predicate Acceptable(listing: Listing) {
    && listing.shaped && listing.token in {None, Some("")} && listing.items.Some?
    && var items := listing.items.value;
       1 <= |items| <= MAX_RECORDS && AllRead(items) && Distinct(items) && |KeysOf(Records(items))| <= MAX_RELEASES
  }

  // ---------------------------------------------------------------- _parse

  /** What the loop has gathered from some records. */
  ghost predicate Gathered(records: set<Release>, seen: set<(string, string, nat)>, latest: map<Key, Release>, failed: nat) {
    && seen == (set r <- records :: IdOf(r))
    && (forall a, b | a in records && b in records && IdOf(a) == IdOf(b) :: a == b)
    && latest.Keys == KeysOf(records)
    && (forall k <- latest :: KeyOf(latest[k]) == k && Newest(records, latest[k]))
    && failed == |set r <- records | r.status == "failed"|
  }

  lemma GatherIds(records: set<Release>, seen: set<(string, string, nat)>, r: Release)
    requires seen == (set x <- records :: IdOf(x)) && IdOf(r) !in seen
    requires forall a, b | a in records && b in records && IdOf(a) == IdOf(b) :: a == b
    ensures r !in records && |records + {r}| == |records| + 1
    ensures seen + {IdOf(r)} == set x <- records + {r} :: IdOf(x)
    ensures forall a, b | a in records + {r} && b in records + {r} && IdOf(a) == IdOf(b) :: a == b
    ensures KeysOf(records + {r}) == KeysOf(records) + {KeyOf(r)}
  {
  }

  lemma GatherFailed(records: set<Release>, r: Release)
    requires r !in records
    ensures |set x <- records + {r} | x.status == "failed"|
         == |set x <- records | x.status == "failed"| + if r.status == "failed" then 1 else 0
  {
    var before, after := (set x <- records | x.status == "failed"), (set x <- records + {r} | x.status == "failed");
    assert after == if r.status == "failed" then before + {r} else before;
  }

  lemma GatherLatest(records: set<Release>, latest: map<Key, Release>, r: Release)
    requires latest.Keys == KeysOf(records)
    requires forall k <- latest :: KeyOf(latest[k]) == k && Newest(records, latest[k])
    ensures var key := KeyOf(r);
            var next := if key !in latest || latest[key].revision < r.revision then latest[key := r] else latest;
            && next.Keys == latest.Keys + {key}
            && forall k <- next :: KeyOf(next[k]) == k && Newest(records + {r}, next[k])
  {
    forall x <- records
      ensures KeyOf(x) in latest && x.revision <= latest[KeyOf(x)].revision
    {
      assert KeyOf(x) in KeysOf(records);
    }
  }

  lemma GatherOne(records: set<Release>, seen: set<(string, string, nat)>, latest: map<Key, Release>, failed: nat, r: Release)
    requires Gathered(records, seen, latest, failed) && IdOf(r) !in seen
    ensures var key := KeyOf(r);
            Gathered(records + {r}, seen + {IdOf(r)},
                     if key !in latest || latest[key].revision < r.revision then latest[key := r] else latest,
                     if r.status == "failed" then failed + 1 else failed)
    ensures |records + {r}| == |records| + 1
  {
    hide Newest, KeysOf;
    GatherIds(records, seen, r);
    GatherFailed(records, r);
    GatherLatest(records, latest, r);
  }

  method Parse(listing: Listing) returns (s: Option<Summary>)
    ensures s.Some? <==> Acceptable(listing)
    ensures s.Some? ==> Summarises(Records(listing.items.value), s.value)
  {
    hide Read, Gathered, Newest, Precedes;
    if !listing.shaped || listing.token !in {None, Some("")} || listing.items.None? {
      return None;
    }
    var items := listing.items.value;
    if !(1 <= |items| <= MAX_RECORDS) {
      return None;
    }
    var seen: set<(string, string, nat)>, latest: map<Key, Release>, failed := {}, map[], 0;
    ghost var records: set<Release> := {};
    NothingGathered();
    for i := 0 to |items|
      invariant AllRead(items[..i]) && Distinct(items[..i]) && records == Records(items[..i])
      invariant Gathered(records, seen, latest, failed) && |records| == i
    {
      var r := Read(items[i]);
      assert items[..i + 1] == items[..i] + [items[i]];
      if r.None? {
        assert items[i] in items;
        return None;
      }
      AddItem(items, i, records, seen, latest, failed);
      if IdOf(r.value) in seen {
        return None;
      }
      GatherOne(records, seen, latest, failed, r.value);
      records := records + {r.value};
      seen := seen + {IdOf(r.value)};
      if r.value.status == "failed" {
        failed := failed + 1;
      }
      var key := KeyOf(r.value);
      if key !in latest || latest[key].revision < r.value.revision {
        latest := latest[key := r.value];
      }
    }
    assert items[..|items|] == items;
    GatheredKeys(records, seen, latest, failed);
    if |latest| > MAX_RELEASES {
      return None;
    }
    var releases := SortReleases(latest);
    GatheredNewest(records, seen, latest, failed, releases);
    var pending := CountPending(releases);
    return Some(Summary(releases, failed, pending, |items|));
  }

  lemma NothingGathered()
    ensures Gathered({}, {}, map[], 0)
  {
    assert (set r: Release <- {} | r.status == "failed") == {};
  }

  lemma AddItem(items: seq<Item>, i: nat, records: set<Release>, seen: set<(string, string, nat)>, latest: map<Key, Release>, failed: nat)
    requires i < |items| && AllRead(items[..i]) && Read(items[i]).Some? && Distinct(items[..i])
    requires records == Records(items[..i]) && Gathered(records, seen, latest, failed)
    ensures AllRead(items[..i + 1]) && Records(items[..i + 1]) == records + {Read(items[i]).value}
    ensures IdOf(Read(items[i]).value) !in seen ==> Distinct(items[..i + 1])
    ensures IdOf(Read(items[i]).value) in seen ==> !AllRead(items) || !Distinct(items)
  {
    hide Read, Newest;
    var r := Read(items[i]).value;
    assert items[..i + 1] == items[..i] + [items[i]];
    if IdOf(r) in seen {
      var x :| x in records && IdOf(x) == IdOf(r);
      var j :| 0 <= j < i && Read(items[..i][j]).value == x;
      assert items[j] == items[..i][j];
      assert AllRead(items) ==> IdOf(Read(items[j]).value) == IdOf(Read(items[i]).value);
    } else {
      var grown := items[..i + 1];
      forall j, k | 0 <= j < k < |grown|
        ensures IdOf(Read(grown[j]).value) != IdOf(Read(grown[k]).value)
      {
        if k == i {
          assert items[..i][j] in items[..i];
          assert Read(items[j]).value in records;
        } else {
          assert items[..i][j] == items[j] && items[..i][k] == items[k];
        }
      }
    }
  }

  lemma GatheredKeys(records: set<Release>, seen: set<(string, string, nat)>, latest: map<Key, Release>, failed: nat)
    requires Gathered(records, seen, latest, failed)
    ensures latest.Keys == KeysOf(records) && |latest| == |KeysOf(records)|
    ensures forall k <- latest :: KeyOf(latest[k]) == k
    ensures failed == |set r <- records | r.status == "failed"|
  {
    hide Newest;
    assert |latest| == |latest.Keys|;
  }

  lemma GatheredNewest(records: set<Release>, seen: set<(string, string, nat)>, latest: map<Key, Release>, failed: nat,
                       releases: seq<Release>)
    requires Gathered(records, seen, latest, failed)
    requires forall r :: r in releases <==> KeyOf(r) in latest && latest[KeyOf(r)] == r
    ensures forall r :: r in releases <==> Newest(records, r)
  {
    forall r
      ensures r in releases <==> Newest(records, r)
    {
      if Newest(records, r) {
        assert KeyOf(r) in KeysOf(records);
        assert IdOf(latest[KeyOf(r)]) == IdOf(r);
      }
    }
  }

  // ---------------------------------------------------------------- sorting

  method Insert(releases: seq<Release>, r: Release) returns (out: seq<Release>)
    requires Sorted(releases) && forall x <- releases :: KeyOf(x) != KeyOf(r)
    ensures Sorted(out) && forall x :: x in out <==> x in releases || x == r
  {
    hide Precedes;
    var i := 0;
    while i < |releases| && Precedes(KeyOf(releases[i]), KeyOf(r))
      invariant i <= |releases| && forall j | 0 <= j < i :: Precedes(KeyOf(releases[j]), KeyOf(r))
    {
      i := i + 1;
    }
    forall j | i <= j < |releases|
      ensures Precedes(KeyOf(r), KeyOf(releases[j]))
    {
      PrecedesOrder(KeyOf(r), KeyOf(releases[i]), KeyOf(releases[j]));
      assert j > i ==> Precedes(KeyOf(releases[i]), KeyOf(releases[j]));
    }
    out := releases[..i] + [r] + releases[i..];
    forall x
      ensures x in out <==> x in releases || x == r
    {
      assert releases == releases[..i] + releases[i..];
    }
  }

  method SortReleases(latest: map<Key, Release>) returns (releases: seq<Release>)
    requires forall k <- latest :: KeyOf(latest[k]) == k
    ensures Sorted(releases)
    ensures forall r :: r in releases <==> KeyOf(r) in latest && latest[KeyOf(r)] == r
  {
    hide Sorted;
    releases := [];
    NoneSorted();
    var rest := latest.Keys;
    while rest != {}
      invariant rest <= latest.Keys && Sorted(releases)
      invariant forall r :: r in releases <==> KeyOf(r) in latest.Keys - rest && latest[KeyOf(r)] == r
      decreases |rest|
    {
      var key :| key in rest;
      releases := Insert(releases, latest[key]);
      rest := rest - {key};
    }
  }

  lemma NoneSorted()
    ensures Sorted([])
  {
  }

  method CountPending(releases: seq<Release>) returns (n: nat)
    requires Sorted(releases)
    ensures n == |set r <- releases | Pending(r)|
  {
    hide Sorted, Pending;
    n := 0;
    assert (set r <- releases[..0] | Pending(r)) == {};
    for i := 0 to |releases|
      invariant n == |set r <- releases[..i] | Pending(r)|
    {
      SortedDistinct(releases, i);
      PendingOne(releases[..i], releases[i]);
      assert releases[..i + 1] == releases[..i] + [releases[i]];
      if Pending(releases[i]) {
        n := n + 1;
      }
    }
    assert releases[..|releases|] == releases;
  }

  lemma PendingOne(front: seq<Release>, last: Release)
    requires last !in front
    ensures |set r <- front + [last] | Pending(r)| == |set r <- front | Pending(r)| + if Pending(last) then 1 else 0
  {
    hide Pending;
    var before, after := (set r <- front | Pending(r)), (set r <- front + [last] | Pending(r));
    assert after == if Pending(last) then before + {last} else before;
  }

  lemma SortedDistinct(releases: seq<Release>, i: nat)
    requires Sorted(releases) && i < |releases|
    ensures releases[i] !in releases[..i]
  {
    hide Precedes;
    PrecedesOrder(KeyOf(releases[i]), KeyOf(releases[i]), KeyOf(releases[i]));
  }

  // ------------------------------------------------------------- any order

  /** A sorted list is determined by what is in it. */
  lemma {:induction false} SortedUnique(a: seq<Release>, b: seq<Release>)
    requires Sorted(a) && Sorted(b) && forall r :: r in a <==> r in b
    ensures a == b
    decreases |a|
  {
    hide Precedes;
    if a == [] {
      assert forall i | 0 <= i < |b| :: b[i] !in a;
    } else {
      assert a[0] in a && a[0] in b;
      assert b != [] && b[0] in b && b[0] in a;
      FirstLeast(a, b[0]);
      FirstLeast(b, a[0]);
      PrecedesOrder(KeyOf(a[0]), KeyOf(b[0]), KeyOf(a[0]));
      assert a[0] == b[0];
      TailMembers(a);
      TailMembers(b);
      SortedUnique(a[1..], b[1..]);
      assert a == [a[0]] + a[1..] && b == [b[0]] + b[1..];
    }
  }

  lemma FirstLeast(a: seq<Release>, r: Release)
    requires Sorted(a) && r in a
    ensures a[0] == r || Precedes(KeyOf(a[0]), KeyOf(r))
  {
    hide Precedes;
    var i :| 0 <= i < |a| && a[i] == r;
  }

  lemma TailMembers(a: seq<Release>)
    requires Sorted(a) && a != []
    ensures Sorted(a[1..]) && forall r :: r in a[1..] <==> r in a && r != a[0]
  {
    hide Precedes;
    assert a == [a[0]] + a[1..];
    PrecedesOrder(KeyOf(a[0]), KeyOf(a[0]), KeyOf(a[0]));
    forall i | 0 <= i < |a[1..]|
      ensures a[1..][i] != a[0]
    {
      assert Precedes(KeyOf(a[0]), KeyOf(a[i + 1]));
    }
  }

  /** Distinctness, said without positions. */
  ghost predicate DistinctBag(items: multiset<Item>) {
    && (forall x <- items :: items[x] == 1)
    && forall x, y | x in items && y in items && x != y && Read(x).Some? && Read(y).Some? ::
         IdOf(Read(x).value) != IdOf(Read(y).value)
  }

  lemma {:induction false} Repeats<T>(s: seq<T>, x: T)
    ensures multiset(s)[x] >= 2 <==> exists i, j | 0 <= i < j < |s| :: s[i] == s[j] == x
  {
    if s != [] {
      var front, last := s[..|s| - 1], s[|s| - 1];
      Repeats(front, x);
      assert s == front + [last];
      if multiset(s)[x] >= 2 {
        if multiset(front)[x] >= 2 {
          var i, j :| 0 <= i < j < |front| && front[i] == front[j] == x;
          assert s[i] == s[j] == x;
        } else {
          assert x in multiset(front);
          var i :| 0 <= i < |front| && front[i] == x;
          assert s[i] == s[|s| - 1] == x;
        }
      }
      if i, j :| 0 <= i < j < |s| && s[i] == s[j] == x {
        if j < |front| {
          assert front[i] == front[j] == x;
        } else {
          assert front[i] == x;
          assert x in multiset(front);
        }
      }
    }
  }

  lemma DistinctIsBag(items: seq<Item>)
    requires AllRead(items)
    ensures Distinct(items) <==> DistinctBag(multiset(items))
  {
    hide Read;
    if Distinct(items) {
      forall x <- multiset(items)
        ensures multiset(items)[x] == 1
      {
        Repeats(items, x);
      }
      forall x, y | x in multiset(items) && y in multiset(items) && x != y
        ensures IdOf(Read(x).value) != IdOf(Read(y).value)
      {
        assert x in items && y in items;
        var i :| 0 <= i < |items| && items[i] == x;
        var j :| 0 <= j < |items| && items[j] == y;
        assert i < j || j < i;
      }
    }
    if DistinctBag(multiset(items)) {
      forall i, j | 0 <= i < j < |items|
        ensures IdOf(Read(items[i]).value) != IdOf(Read(items[j]).value)
      {
        assert items[i] in multiset(items) && items[j] in multiset(items);
        Repeats(items, items[i]);
      }
    }
  }

  lemma SameBag(a: seq<Item>, b: seq<Item>)
    requires multiset(a) == multiset(b)
    ensures |a| == |b| && AllRead(a) == AllRead(b)
    ensures AllRead(a) ==> Records(a) == Records(b) && Distinct(a) == Distinct(b)
  {
    hide Read, Distinct;
    assert |a| == |multiset(a)| && |b| == |multiset(b)|;
    assert forall x :: x in a <==> x in multiset(a);
    assert forall x :: x in b <==> x in multiset(b);
    if AllRead(a) {
      DistinctIsBag(a);
      DistinctIsBag(b);
    }
  }

  /** The order of the items decides nothing: any permutation is accepted alike,
      and whatever summarises one summarises the other and is the same. */
  lemma OrderIndependent(a: Listing, b: Listing, s: Summary, t: Summary)
    requires a.items.Some? && b.items.Some? && multiset(a.items.value) == multiset(b.items.value)
    requires b == a.(items := b.items)
    ensures Acceptable(a) <==> Acceptable(b)
    ensures Acceptable(a) && Summarises(Records(a.items.value), s) && Summarises(Records(b.items.value), t) ==> s == t
  {
    hide Read, Newest, Sorted, Distinct, KeysOf;
    SameBag(a.items.value, b.items.value);
    if Acceptable(a) && Summarises(Records(a.items.value), s) && Summarises(Records(b.items.value), t) {
      SortedUnique(s.releases, t.releases);
    }
  }

  /** Each release is listed once, with its largest revision and the status of
      that revision. */
  lemma ListsEveryRelease(records: set<Release>, s: Summary, r: Release)
    requires Summarises(records, s) && r in records
    ensures exists x <- s.releases :: KeyOf(x) == KeyOf(r) && x in records && x.revision >= r.revision
    ensures forall x, y | x in s.releases && y in s.releases && KeyOf(x) == KeyOf(y) :: x == y
  {
    hide Precedes;
    var x := Largest(records, r);
    assert x in s.releases;
    forall x, y | x in s.releases && y in s.releases && KeyOf(x) == KeyOf(y)
      ensures x == y
    {
      PrecedesOrder(KeyOf(x), KeyOf(x), KeyOf(x));
      var i :| 0 <= i < |s.releases| && s.releases[i] == x;
      var j :| 0 <= j < |s.releases| && s.releases[j] == y;
      assert i == j;
    }
  }

  lemma {:induction false} Largest(records: set<Release>, r: Release) returns (x: Release)
    requires r in records
    ensures Newest(records, x) && KeyOf(x) == KeyOf(r) && x.revision >= r.revision
    decreases |records|
  {
    if y :| y in records && KeyOf(y) == KeyOf(r) && y.revision > r.revision {
      x := Largest(records - {r}, y);
    } else {
      x := r;
    }
  }

  // ------------------------------------------------- the terms used above

  /** What a name of a namespace or a release may be. */
  ghost predicate Label(text: string) {
    && 1 <= |text| <= 63 && text[0] != '-' && text[|text| - 1] != '-'
    && forall i | 0 <= i < |text| :: 'a' <= text[i] <= 'z' || '0' <= text[i] <= '9' || text[i] == '-'
  }

  lemma LabelIff(text: string)
    ensures IsName(text) <==> Label(text)
  {
    if IsName(text) {
      forall i | 0 <= i < |text|
        ensures IsAlnum(text[i]) || text[i] == '-'
      {
        assert text[i] in text;
      }
    }
  }

  lemma {:induction false} ValueBound(s: string)
    requires Numeral(s)
    ensures Value(s) < Pow10(|s|)
  {
    if |s| > 1 {
      ValueBound(s[..|s| - 1]);
    }
  }

  lemma SixDigits(n: nat)
    ensures |Print(n)| <= 6 <==> n <= 999999
  {
    assert Pow10(6) == 1000000 by {
      assert Pow10(3) == 1000;
    }
    PrintValue(n);
    if n <= 999999 {
      PrintLength(n, 6);
    }
    if |Print(n)| <= 6 {
      ValueBound(Print(n));
      PowGrows(|Print(n)|, 6);
    }
  }

  lemma {:induction false} PowGrows(a: nat, b: nat)
    requires a <= b
    ensures Pow10(a) <= Pow10(b)
  {
    if a < b {
      PowGrows(a, b - 1);
    }
  }

  /** Exactly what an item is read as. Its revision is written without leading
      zeros, and is less than a million. */
  lemma ReadIff(item: Item, r: Release)
    ensures Read(item) == Some(r) <==>
              && item.shaped && item.owner == Some("helm")
              && item.namespace == Some(r.namespace) && Label(r.namespace)
              && item.name == Some(r.name) && Label(r.name)
              && item.status == Some(r.status)
              && r.status in {"deployed", "superseded", "failed", "pending-install", "pending-upgrade", "pending-rollback",
                              "uninstalled", "uninstalling"}
              && 1 <= r.revision <= 999999 && item.version == Some(Print(r.revision))
  {
    LabelIff(r.namespace);
    LabelIff(r.name);
    SixDigits(r.revision);
    PrintValue(r.revision);
    if item.version.Some? && Numeral(item.version.value) {
      SixDigits(Value(item.version.value));
    }
    hide IsName, Label, Print, Value;
  }

  /** Among the statuses that are accepted, what pending means. */
  lemma PendingIff(r: Release)
    requires r.status in STATUSES
    ensures Pending(r) <==> r.status in {"pending-install", "pending-upgrade", "pending-rollback"}
  {
    assert "deployed"[0] == 'd' && "superseded"[0] == 's' && "failed"[0] == 'f' && "uninstalled"[0] == 'u' && "uninstalling"[0] == 'u';
  }

  /** What the order of texts is: one is the beginning of the other, or at the
      first place where they differ its character is smaller. */
  ghost predicate Smaller(a: string, b: string) {
    a < b || exists k :: SmallerAt(a, b, k)
  }

  ghost predicate SmallerAt(a: string, b: string, k: nat) {
    k < |a| && k < |b| && a[k] < b[k] && forall i | 0 <= i < k :: a[i] == b[i]
  }

  lemma {:induction false} BelowIff(a: string, b: string)
    ensures Below(a, b) <==> Smaller(a, b)
    decreases |a|
  {
    if a != "" && b != "" {
      if a[0] == b[0] {
        BelowIff(a[1..], b[1..]);
        SmallerTail(a, b);
      } else {
        SmallerHead(a, b);
      }
    }
  }

  lemma SmallerTail(a: string, b: string)
    requires a != "" && b != "" && a[0] == b[0]
    ensures Smaller(a, b) <==> Smaller(a[1..], b[1..])
  {
    assert a == [a[0]] + a[1..] && b == [b[0]] + b[1..];
    forall k: nat
      ensures SmallerAt(a, b, k + 1) <==> SmallerAt(a[1..], b[1..], k)
    {
      assert forall i | 0 <= i < k && i < |a[1..]| && i < |b[1..]| :: a[1..][i] == a[i + 1] && b[1..][i] == b[i + 1];
      if SmallerAt(a[1..], b[1..], k) {
        assert forall i | 0 < i < k + 1 :: a[i] == a[1..][i - 1] && b[i] == b[1..][i - 1];
      }
    }
    if k: nat :| SmallerAt(a, b, k) {
      assert k > 0 && SmallerAt(a[1..], b[1..], k - 1);
    }
    if k: nat :| SmallerAt(a[1..], b[1..], k) {
      assert SmallerAt(a, b, k + 1);
    }
  }

  lemma SmallerHead(a: string, b: string)
    requires a != "" && b != "" && a[0] != b[0]
    ensures Smaller(a, b) <==> a[0] < b[0]
  {
    if a[0] < b[0] {
      assert SmallerAt(a, b, 0);
    }
  }

  /** A summary, field by field: sorted by namespace and then by name, each entry
      the newest revision of its release, and the counts. */
  lemma SummaryIs(records: set<Release>, s: Summary)
    requires Summarises(records, s)
    ensures forall i, j | 0 <= i < j < |s.releases| ::
              var a, b := s.releases[i], s.releases[j];
              Smaller(a.namespace, b.namespace) || (a.namespace == b.namespace && Smaller(a.name, b.name))
    ensures forall r <- s.releases :: r in records
    ensures forall r <- s.releases, x <- records | x.namespace == r.namespace && x.name == r.name :: x.revision <= r.revision
    ensures s.failed == |set r <- records | r.status == "failed"| && s.count == |records|
    ensures s.pending == |set r <- s.releases | "pending-" <= r.status|
  {
    hide Below, Smaller;
    forall i, j | 0 <= i < j < |s.releases|
      ensures var a, b := s.releases[i], s.releases[j];
              Smaller(a.namespace, b.namespace) || (a.namespace == b.namespace && Smaller(a.name, b.name))
    {
      var a, b := s.releases[i], s.releases[j];
      BelowIff(a.namespace, b.namespace);
      BelowIff(a.name, b.name);
      assert Precedes(KeyOf(a), KeyOf(b));
    }
    assert (set r <- s.releases | Pending(r)) == set r <- s.releases | "pending-" <= r.status;
  }

  lemma ReadKeys(items: seq<Item>)
    requires AllRead(items)
    ensures KeysOf(Records(items)) == set item <- items :: (Read(item).value.namespace, Read(item).value.name)
  {
    hide Read;
    var keys := set item <- items :: (Read(item).value.namespace, Read(item).value.name);
    forall k
      ensures k in KeysOf(Records(items)) <==> k in keys
    {
      if k in KeysOf(Records(items)) {
        var r :| r in Records(items) && KeyOf(r) == k;
        var item :| item in items && Read(item).value == r;
      }
      if k in keys {
        var item :| item in items && (Read(item).value.namespace, Read(item).value.name) == k;
        assert Read(item).value in Records(items);
      }
    }
  }

  /** Exactly which lists are accepted. */
  lemma AcceptableIff(listing: Listing)
    ensures Acceptable(listing) <==>
              && listing.shaped && listing.token in {None, Some("")} && listing.items.Some?
              && var items := listing.items.value;
                 && 1 <= |items| <= 128 && (forall item <- items :: Read(item).Some?)
                 && (forall i, j | 0 <= i < j < |items| ::
                       var a, b := Read(items[i]).value, Read(items[j]).value;
                       !(a.namespace == b.namespace && a.name == b.name && a.revision == b.revision))
                 && |set item <- items :: (Read(item).value.namespace, Read(item).value.name)| <= 32
  {
    hide Read;
    if listing.items.Some? && AllRead(listing.items.value) {
      var items := listing.items.value;
      ReadKeys(items);
      assert forall i | 0 <= i < |items| :: items[i] in items;
    }
  }
}
