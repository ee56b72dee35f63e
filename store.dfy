/** The persisted risk record and the queries the routes run against the
    database: a filter made of an exact band match and a case-insensitive
    search over title or description, a single-key sort, and an offset/limit
    window. The database is an in-memory sequence of records in storage
    order. */
module Store {
  import opened Scoring
  import opened Text

  /** A stored risk. `band` and `status` are stored as text; timestamps are
      milliseconds since the epoch. */
  datatype Risk = Risk(
    id: string,
    title: string,
    description: Option<string>,
    category: string,
    owner: string,
    likelihood: int,
    impact: int,
    severity: int,
    band: string,
    status: string,
    createdAt: int,
    updatedAt: int)

  /** The database: reachable with its records, or failing every call. */
  datatype Storage = Up(risks: seq<Risk>) | Down

  // ---------------------------------------------------------------------------
  // Selection

  /** The records of `s` that satisfy `p`, in their original order. */
  function Keep(s: seq<Risk>, p: Risk -> bool): (r: seq<Risk>)
    ensures |r| <= |s|
    ensures forall x :: x in r <==> x in s && p(x)
    ensures forall k :: 0 <= k < |r| ==> p(r[k])
  {
    if s == [] then [] else (if p(s[0]) then [s[0]] else []) + Keep(s[1..], p)
  }

  /** Each record is kept as often as it is stored when it satisfies `p`,
      and never otherwise. */
  lemma {:induction false} KeepMultiset(s: seq<Risk>, p: Risk -> bool)
    ensures forall x :: multiset(Keep(s, p))[x] == if p(x) then multiset(s)[x] else 0
  {
    if s != [] {
      KeepMultiset(s[1..], p);
      assert s == [s[0]] + s[1..];
    }
  }

  /** Keeping the records of a concatenation keeps those of each part. */
  lemma {:induction false} KeepAppend(s: seq<Risk>, t: seq<Risk>, p: Risk -> bool)
    ensures Keep(s + t, p) == Keep(s, p) + Keep(t, p)
  {
    if s == [] {
      assert s + t == t;
    } else {
      assert (s + t)[1..] == s[1..] + t;
      KeepAppend(s[1..], t, p);
      var head := if p(s[0]) then [s[0]] else [];
      assert Keep(s + t, p) == head + Keep(s[1..] + t, p);
    }
  }

  /** `a` is `b` with some elements left out, the rest in their order. */
  predicate Subsequence(a: seq<Risk>, b: seq<Risk>)
    decreases |b|
  {
    if a == [] then true
    else if b == [] then false
    else if a[0] == b[0] then Subsequence(a[1..], b[1..])
    else Subsequence(a, b[1..])
  }

  /** Keeping records never reorders them. */
  lemma {:induction false} KeepSubsequence(s: seq<Risk>, p: Risk -> bool)
    ensures Subsequence(Keep(s, p), s)
  {
    if s != [] {
      KeepSubsequence(s[1..], p);
      if !p(s[0]) {
        var t := Keep(s[1..], p);
        assert Keep(s, p) == t;
        if t != [] {
          assert p(t[0]);
        }
      }
    }
  }

  /** One branch of a search disjunction. */
  datatype Condition = TitleContains(text: string) | DescriptionContains(text: string)

  /** The filter handed to the database: an optional exact band and an
      optional disjunction of search conditions. */
  datatype Where = Where(band: Option<string>, any: Option<seq<Condition>>)

  /** A missing description contains nothing, as a null column never
      satisfies `contains`. */
  predicate Holds(r: Risk, c: Condition)
  {
    match c
    case TitleContains(t) => ContainsInsensitive(r.title, t)
    case DescriptionContains(t) => r.description.Some? && ContainsInsensitive(r.description.value, t)
  }

  predicate AnyHolds(r: Risk, cs: seq<Condition>)
  {
    exists k :: 0 <= k < |cs| && Holds(r, cs[k])
  }

  predicate Matches(r: Risk, w: Where)
  {
    (w.band.None? || r.band == w.band.value) && (w.any.None? || AnyHolds(r, w.any.value))
  }

  /** The records a `findMany` or `count` with this filter sees. */
  function FilterWhere(db: seq<Risk>, w: Where): (r: seq<Risk>)
    ensures forall x :: x in r <==> x in db && Matches(x, w)
  {
    Keep(db, x => Matches(x, w))
  }

  /** `count`: the number of matching records, counted independently. It
      is the whole database when every record matches, and 0 when none
      does. */
  function Count(db: seq<Risk>, w: Where): (n: nat)
    ensures n <= |db|
    ensures (forall k :: 0 <= k < |db| ==> Matches(db[k], w)) ==> n == |db|
    ensures (forall k :: 0 <= k < |db| ==> !Matches(db[k], w)) ==> n == 0
  {
    if db == [] then 0 else (if Matches(db[0], w) then 1 else 0) + Count(db[1..], w)
  }

  lemma {:induction false} CountIsFilterSize(db: seq<Risk>, w: Where)
    ensures Count(db, w) == |FilterWhere(db, w)|
  {
    if db != [] {
      CountIsFilterSize(db[1..], w);
    }
  }

  // ---------------------------------------------------------------------------
  // Ordering

  datatype SortKey = BySeverity | ByUpdatedAt
  datatype Direction = Asc | Desc

  /** An `orderBy` object: empty, or one key with a direction. */
  datatype OrderBy = Unordered | By(key: SortKey, dir: Direction)

  function KeyOf(r: Risk, key: SortKey): int
  {
    match key
    case BySeverity => r.severity
    case ByUpdatedAt => r.updatedAt
  }

  predicate InOrder(a: Risk, b: Risk, key: SortKey, dir: Direction)
  {
    match dir
    case Asc => KeyOf(a, key) <= KeyOf(b, key)
    case Desc => KeyOf(a, key) >= KeyOf(b, key)
  }

  /** Keys never step against the direction. Ties may appear in any order. */
  predicate Sorted(s: seq<Risk>, key: SortKey, dir: Direction)
  {
    forall i, j :: 0 <= i < j < |s| ==> InOrder(s[i], s[j], key, dir)
  }

  function Insert(x: Risk, s: seq<Risk>, key: SortKey, dir: Direction): (r: seq<Risk>)
    ensures multiset(r) == multiset(s) + multiset{x}
  {
    if s == [] then [x]
    else if InOrder(x, s[0], key, dir) then [x] + s
    else
      assert s == [s[0]] + s[1..];
      [s[0]] + Insert(x, s[1..], key, dir)
  }

  lemma InsertMembers(x: Risk, s: seq<Risk>, key: SortKey, dir: Direction)
    ensures forall y :: y in Insert(x, s, key, dir) ==> y == x || y in s
  {
    var r := Insert(x, s, key, dir);
    forall y | y in r ensures y == x || y in s {
      assert y in multiset(r);
    }
  }

  /** Putting in front a record that precedes every element keeps the order. */
  lemma ConsSorted(h: Risk, t: seq<Risk>, key: SortKey, dir: Direction)
    requires Sorted(t, key, dir)
    requires forall y :: y in t ==> InOrder(h, y, key, dir)
    ensures Sorted([h] + t, key, dir)
  {
    var r := [h] + t;
    forall i, j | 0 <= i < j < |r| ensures InOrder(r[i], r[j], key, dir) {
      assert r[j] == t[j - 1];
      if i > 0 {
        assert r[i] == t[i - 1];
      }
    }
  }

  lemma {:induction false} InsertSorted(x: Risk, s: seq<Risk>, key: SortKey, dir: Direction)
    requires Sorted(s, key, dir)
    ensures Sorted(Insert(x, s, key, dir), key, dir)
  {
    if s == [] {
    } else if InOrder(x, s[0], key, dir) {
      ConsSorted(x, s, key, dir);
    } else {
      var t := Insert(x, s[1..], key, dir);
      assert Sorted(s[1..], key, dir);
      InsertSorted(x, s[1..], key, dir);
      InsertMembers(x, s[1..], key, dir);
      ConsSorted(s[0], t, key, dir);
    }
  }

  /** A sorted rearrangement of `s` (insertion sort). */
  function Sort(s: seq<Risk>, key: SortKey, dir: Direction): (r: seq<Risk>)
    ensures Sorted(r, key, dir)
    ensures multiset(r) == multiset(s)
  {
    if s == [] then []
    else
      assert s == [s[0]] + s[1..];
      InsertSorted(s[0], Sort(s[1..], key, dir), key, dir);
      Insert(s[0], Sort(s[1..], key, dir), key, dir)
  }

  function Arrange(s: seq<Risk>, ob: OrderBy): (r: seq<Risk>)
    ensures multiset(r) == multiset(s)
    ensures ob.By? ==> Sorted(r, ob.key, ob.dir)
  {
    match ob
    case Unordered => s
    case By(key, dir) => Sort(s, key, dir)
  }

  // ---------------------------------------------------------------------------
  // Window

  /** `skip`/`take`: the positions [skip, skip + take) that exist. */
  function Window(s: seq<Risk>, skip: nat, take: nat): (r: seq<Risk>)
    ensures |r| == if skip >= |s| then 0 else if |s| - skip < take then |s| - skip else take
    ensures forall k :: 0 <= k < |r| ==> r[k] == s[skip + k]
  {
    if skip >= |s| then [] else if |s| - skip < take then s[skip..] else s[skip..skip + take]
  }

  /** `findMany`: filter, then order, then the window when one is given. */
  function FindMany(db: seq<Risk>, w: Where, ob: OrderBy, window: Option<(nat, nat)>): (r: seq<Risk>)
    ensures forall x :: x in r ==> x in db && Matches(x, w)
    ensures ob.By? ==> Sorted(r, ob.key, ob.dir)
    ensures window.Some? ==> |r| <= window.value.1
  {
    var all := Arrange(FilterWhere(db, w), ob);
    assert forall x :: x in all ==> x in multiset(FilterWhere(db, w));
    match window
    case None => all
    case Some((skip, take)) => Window(all, skip, take)
  }

  /** A windowed `findMany` is a slice of the unwindowed one. */
  lemma FindManyWindow(db: seq<Risk>, w: Where, ob: OrderBy, skip: nat, take: nat)
    ensures FindMany(db, w, ob, Some((skip, take))) == Window(FindMany(db, w, ob, None), skip, take)
    ensures |FindMany(db, w, ob, Some((skip, take)))| <= take
  {
  }

  /** Without a window every matching record comes back exactly once per
      stored copy, and nothing else. */
  lemma FindManyAll(db: seq<Risk>, w: Where, ob: OrderBy)
    ensures forall x :: multiset(FindMany(db, w, ob, None))[x] == if Matches(x, w) then multiset(db)[x] else 0
    ensures |FindMany(db, w, ob, None)| == Count(db, w)
  {
    CountIsFilterSize(db, w);
    KeepMultiset(db, x => Matches(x, w));
    assert |FindMany(db, w, ob, None)| == |multiset(FindMany(db, w, ob, None))|;
  }

  // ---------------------------------------------------------------------------
  // Client-side selections

  /** The records at one cell of the likelihood/impact grid. */
  function RatedAt(s: seq<Risk>, likelihood: int, impact: int): (r: seq<Risk>)
    ensures forall x :: x in r <==> x in s && x.likelihood == likelihood && x.impact == impact
  {
    Keep(s, (x: Risk) => x.likelihood == likelihood && x.impact == impact)
  }

  /** The number of records whose stored band is `name`. */
  function CountBand(s: seq<Risk>, name: string): nat
  {
    |Keep(s, (x: Risk) => x.band == name)|
  }

  /** The number of records whose stored status is `name`. */
  function CountStatus(s: seq<Risk>, name: string): nat
  {
    |Keep(s, (x: Risk) => x.status == name)|
  }

  /** A client-side band tally agrees with the server-side `count` under
      an exact band filter. */
  lemma {:induction false} TallyIsBandCount(s: seq<Risk>, name: string)
    ensures CountBand(s, name) == Count(s, Where(Some(name), None))
  {
    if s != [] {
      TallyIsBandCount(s[1..], name);
      assert Keep(s, (x: Risk) => x.band == name)
          == (if s[0].band == name then [s[0]] else []) + Keep(s[1..], (x: Risk) => x.band == name);
    }
  }

  /** Each record lies in at most one band tally, and in exactly one when
      its stored band is one of the four names. */
  lemma {:induction false} BandTalliesSum(s: seq<Risk>)
    ensures CountBand(s, "Low") + CountBand(s, "Moderate") + CountBand(s, "High") + CountBand(s, "Critical") <= |s|
    ensures (forall k :: 0 <= k < |s| ==> ParseBand(s[k].band).Some?) ==>
      CountBand(s, "Low") + CountBand(s, "Moderate") + CountBand(s, "High") + CountBand(s, "Critical") == |s|
  {
    if s != [] {
      BandTalliesSum(s[1..]);
      assert forall k :: 0 <= k < |s[1..]| ==> s[1..][k] == s[k + 1];
    }
  }

  /** Each record lies in at most one status tally. */
  lemma {:induction false} StatusTalliesSum(s: seq<Risk>)
    ensures CountStatus(s, "Open") + CountStatus(s, "Monitoring") + CountStatus(s, "Closed") <= |s|
    ensures (forall k :: 0 <= k < |s| ==> ParseStatus(s[k].status).Some?) ==>
      CountStatus(s, "Open") + CountStatus(s, "Monitoring") + CountStatus(s, "Closed") == |s|
  {
    if s != [] {
      StatusTalliesSum(s[1..]);
      assert forall k :: 0 <= k < |s[1..]| ==> s[1..][k] == s[k + 1];
    }
  }
}
