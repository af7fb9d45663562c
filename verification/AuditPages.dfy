/**
 * Pages of the append-only audit journal: each page continues after the last event of the one before it, within
 * the part of the journal that existed when the first page was read.
 */
module AuditPages {
  import opened Wrappers
  import opened Sorting

  // Times are normalized instants; event ids are compared after them.
  datatype Event = Event(number: nat, time: nat, id: nat, business: bool, company: nat, action: string, result: string,
                         actor: nat, texts: set<string>)

  datatype Query = Query(from: nat, to: nat, company: Option<nat>, action: Option<string>, result: Option<string>,
                         actor: Option<nat>, text: Option<string>)

  datatype Actor = Actor(id: nat, admin: bool)

  // Case-insensitive containment, as the store's collation function decides it.
  type Contains = (string, string) -> bool

  predicate Wanted(c: Contains, who: Actor, q: Query, e: Event) {
    q.from <= e.time < q.to && (who.admin || e.business) &&
    (q.company.Some? ==> e.company == q.company.value) && (q.action.Some? ==> e.action == q.action.value) &&
    (q.result.Some? ==> e.result == q.result.value) && (q.actor.Some? ==> e.actor == q.actor.value) &&
    (q.text.Some? ==> exists t :: t in e.texts && c(t, q.text.value))
  }

  // Newest first.
  predicate Before(x: Event, y: Event) {
    x.time > y.time || (x.time == y.time && x.id > y.id)
  }

  function Order(): (Event, Event) -> bool {
    (x: Event, y: Event) => Before(x, y)
  }

  datatype Key = Key(time: nat, id: nat)

  // The event comes after this position of the listing.
  predicate After(k: Key, e: Event) {
    e.time < k.time || (e.time == k.time && e.id < k.id)
  }

  function KeyOf(e: Event): Key {
    Key(e.time, e.id)
  }

  function Select(log: seq<Event>, f: Event -> bool): seq<Event> {
    if log == [] then []
    else Select(log[..|log| - 1], f) + if f(log[|log| - 1]) then [log[|log| - 1]] else []
  }

  function Filter(c: Contains, who: Actor, q: Query, cutoff: nat, after: Option<Key>): Event -> bool {
    (e: Event) => e.number <= cutoff && Wanted(c, who, q, e) && (after.Some? ==> After(after.value, e))
  }

  // SELECT ... ORDER BY time DESC, id DESC.
  function Listing(c: Contains, log: seq<Event>, who: Actor, q: Query, cutoff: nat, after: Option<Key>): seq<Event> {
    SortBy(Order(), Select(log, Filter(c, who, q, cutoff, after)))
  }

  function Take<T>(s: seq<T>, n: nat): seq<T> {
    if |s| <= n then s else s[..n]
  }

  // --- The journal ----------------------------------------------------------------------------

  ghost predicate Journal(log: seq<Event>) {
    (forall i :: 0 <= i < |log| ==> log[i].number > 0) &&
    (forall i, j :: 0 <= i < j < |log| ==> log[i].number < log[j].number && log[i].id != log[j].id)
  }

  function Latest(log: seq<Event>): nat {
    if log == [] then 0 else log[|log| - 1].number
  }

  lemma {:induction false} SelectElements(log: seq<Event>, f: Event -> bool)
    ensures forall e :: e in Select(log, f) <==> e in log && f(e)
  {
    if log != [] {
      var n := |log| - 1;
      SelectElements(log[..n], f);
      assert log == log[..n] + [log[n]];
    }
  }

  lemma {:induction false} SelectDistinct(log: seq<Event>, f: Event -> bool)
    requires Journal(log)
    ensures Distinct(Select(log, f))
  {
    if log != [] {
      var n := |log| - 1;
      SelectDistinct(log[..n], f);
      SelectElements(log[..n], f);
      forall e | e in Select(log[..n], f) ensures e != log[n] {
        var i :| 0 <= i < n && log[..n][i] == e;
      }
    }
  }

  lemma SameId(log: seq<Event>, x: Event, y: Event)
    requires Journal(log) && x in log && y in log && x.id == y.id
    ensures x == y
  {
    var i :| 0 <= i < |log| && log[i] == x;
    var j :| 0 <= j < |log| && log[j] == y;
  }

  lemma OrderIsTotal(log: seq<Event>, f: Event -> bool)
    requires Journal(log)
    ensures TotalOn(Order(), Select(log, f))
  {
    SelectElements(log, f);
    forall x, y | x in Select(log, f) && y in Select(log, f) && x != y ensures Before(x, y) || Before(y, x) {
      if x.id == y.id { SameId(log, x, y); }
    }
  }

  // A listing is in strictly descending order and has exactly the wanted events.
  lemma ListingIsSorted(c: Contains, log: seq<Event>, who: Actor, q: Query, cutoff: nat, after: Option<Key>)
    requires Journal(log)
    ensures var rows := Listing(c, log, who, q, cutoff, after);
            Sorted(Order(), rows) && Distinct(rows) &&
            forall e :: e in rows <==> e in log && Filter(c, who, q, cutoff, after)(e)
  {
    var f := Filter(c, who, q, cutoff, after);
    SelectDistinct(log, f);
    OrderIsTotal(log, f);
    SortIsSorted(Order(), Select(log, f));
    SortElements(Order(), Select(log, f));
    SameElements(Listing(c, log, who, q, cutoff, after), Select(log, f));
    SelectElements(log, f);
    SortedDistinct(Listing(c, log, who, q, cutoff, after));
  }

  lemma SortedDistinct(rows: seq<Event>)
    requires Sorted(Order(), rows)
    ensures Distinct(rows)
  {
    forall i, j | 0 <= i < j < |rows| ensures rows[i] != rows[j] {
      assert Order()(rows[i], rows[j]);
    }
  }

  lemma HasElement(b: seq<Event>)
    requires b != []
    ensures exists e :: e in b
  {
    assert b[0] in b;
  }

  // Two sorted lists of the same events are the same list.
  lemma {:induction false} SortedByElements(a: seq<Event>, b: seq<Event>)
    requires Sorted(Order(), a) && Sorted(Order(), b) && forall e :: e in a <==> e in b
    ensures a == b
    decreases |a|
  {
    if a == [] {
      if b != [] { HasElement(b); }
    } else {
      assert a[0] in a && a[0] in b;
      HeadsAgree(a, b);
      TailElementsAgree(a, b);
      SortedByElements(a[1..], b[1..]);
      assert a == [a[0]] + a[1..] && b == [b[0]] + b[1..];
    }
  }

  lemma HeadsAgree(a: seq<Event>, b: seq<Event>)
    requires Sorted(Order(), a) && Sorted(Order(), b) && a != [] && b != [] && forall e :: e in a <==> e in b
    ensures a[0] == b[0]
  {
    assert a[0] in b && b[0] in a by {
      assert a[0] in a && b[0] in b;
    }
    assert forall i :: 0 < i < |b| ==> Order()(b[0], b[i]);
    assert forall j :: 0 < j < |a| ==> Order()(a[0], a[j]);
    var i :| 0 <= i < |b| && b[i] == a[0];
    var j :| 0 <= j < |a| && a[j] == b[0];
  }

  lemma TailElementsAgree(a: seq<Event>, b: seq<Event>)
    requires Sorted(Order(), a) && Sorted(Order(), b) && a != [] && b != [] && a[0] == b[0] && forall e :: e in a <==> e in b
    ensures forall e :: e in a[1..] <==> e in b[1..]
  {
    SortedDistinct(a);
    SortedDistinct(b);
    forall e ensures e in a[1..] <==> e in b[1..] {
      assert e in a[1..] <==> e in a && e != a[0] by { InTail(a, e); }
      assert e in b[1..] <==> e in b && e != b[0] by { InTail(b, e); }
    }
  }

  lemma InTail(s: seq<Event>, e: Event)
    requires s != [] && Distinct(s)
    ensures e in s[1..] <==> e in s && e != s[0]
  {
    if e in s && e != s[0] {
      var i :| 0 <= i < |s| && s[i] == e;
      assert s[1..][i - 1] == e;
    }
    if e in s[1..] {
      var i :| 0 <= i < |s| - 1 && s[1..][i] == e;
      assert s[i + 1] == e && s[0] != s[i + 1];
    }
  }

  // --- Pages continue each other --------------------------------------------------------------

  /** The listing after the event at position k - 1, read from a journal that has grown since, is the rest of the first
      listing. */
  lemma RestOfListing(c: Contains, log: seq<Event>, later: seq<Event>, who: Actor, q: Query, cutoff: nat, k: nat)
    requires Journal(log) && Journal(later) && log <= later && cutoff <= Latest(log)
    requires k <= |Listing(c, log, who, q, cutoff, None)|
    ensures var rows := Listing(c, log, who, q, cutoff, None);
            var after := if k == 0 then None else Some(KeyOf(rows[k - 1]));
            Listing(c, later, who, q, cutoff, after) == rows[k..]
  {
    var rows := Listing(c, log, who, q, cutoff, None);
    var after := if k == 0 then None else Some(KeyOf(rows[k - 1]));
    var rest := Listing(c, later, who, q, cutoff, after);
    ListingIsSorted(c, log, who, q, cutoff, None);
    ListingIsSorted(c, later, who, q, cutoff, after);
    forall e ensures e in rest <==> e in rows[k..] {
      OldEvents(log, later, cutoff, e);
      InSuffix(rows, k, e);
    }
    assert Sorted(Order(), rows[k..]) by {
      forall i, j | 0 <= i < j < |rows[k..]| ensures Order()(rows[k..][i], rows[k..][j]) {
        assert Order()(rows[k + i], rows[k + j]);
      }
    }
    SortedByElements(rest, rows[k..]);
  }

  lemma NewEventsAreLater(log: seq<Event>, later: seq<Event>, cutoff: nat)
    requires Journal(later) && log <= later && cutoff <= Latest(log)
    ensures forall i :: |log| <= i < |later| ==> later[i].number > cutoff
  {
    if log != [] { assert later[|log| - 1] == log[|log| - 1]; }
  }

  // The events up to the cutoff are the ones that were there.
  lemma OldEvents(log: seq<Event>, later: seq<Event>, cutoff: nat, e: Event)
    requires Journal(later) && log <= later && cutoff <= Latest(log)
    ensures e.number <= cutoff ==> (e in log <==> e in later)
  {
    NewEventsAreLater(log, later, cutoff);
    if e in later && e.number <= cutoff {
      var i :| 0 <= i < |later| && later[i] == e;
      assert log[i] == e;
    }
    if e in log {
      var i :| 0 <= i < |log| && log[i] == e;
      assert later[i] == e;
    }
  }

  lemma InSuffix(rows: seq<Event>, k: nat, e: Event)
    requires Sorted(Order(), rows) && k <= |rows|
    ensures e in rows[k..] <==> e in rows && (k == 0 || Before(rows[k - 1], e))
  {
    if e in rows[k..] {
      var i :| 0 <= i < |rows| - k && rows[k..][i] == e;
      assert rows[k + i] == e;
      if k > 0 { assert Order()(rows[k - 1], rows[k + i]); }
    }
    if k > 0 { assert forall i :: 0 <= i < k - 1 ==> Order()(rows[i], rows[k - 1]); }
    if e in rows && (k == 0 || Before(rows[k - 1], e)) {
      var i :| 0 <= i < |rows| && rows[i] == e;
      assert i >= k;
      assert rows[k..][i - k] == e;
    }
  }

  // --- The service ----------------------------------------------------------------------------

  const CursorSeconds := 900

  // A snapshot fixes the end of the journal for one reader and query; a cursor is a position in it. Their ids are
  // digests of what they say.
  datatype Snapshot = Snapshot(owner: nat, query: Query, cutoff: nat, newest: Option<nat>, expires: nat)
  datatype Cursor = Cursor(owner: nat, query: Query, snapshot: Snapshot, key: Key)

  datatype Page = Page(items: seq<Event>, next: Option<Cursor>, newest: Option<nat>)

  predicate Sees(who: Actor, e: Event) {
    who.admin || e.business
  }

  // The last visible event of the journal.
  function Newest(log: seq<Event>, who: Actor): Option<Event> {
    if log == [] then None
    else if Sees(who, log[|log| - 1]) then Some(log[|log| - 1])
    else Newest(log[..|log| - 1], who)
  }

  function Cutoff(log: seq<Event>, who: Actor): nat {
    if Newest(log, who).Some? then Newest(log, who).value.number else 0
  }

  lemma {:induction false} CutoffIsOld(log: seq<Event>, who: Actor)
    requires Journal(log)
    ensures Cutoff(log, who) <= Latest(log)
  {
    if log != [] {
      var n := |log| - 1;
      CutoffIsOld(log[..n], who);
      if n > 0 { assert log[n - 1].number < log[n].number; }
    }
  }

  lemma {:induction false} CutoffCoversVisible(log: seq<Event>, who: Actor, i: nat)
    requires Journal(log) && i < |log| && Sees(who, log[i])
    ensures log[i].number <= Cutoff(log, who)
  {
    var n := |log| - 1;
    if i < n && !Sees(who, log[n]) {
      CutoffCoversVisible(log[..n], who, i);
    }
  }

  /** The listing that starts a sequence of pages has every wanted event of the journal, once, newest first. */
  lemma FirstListingIsComplete(c: Contains, log: seq<Event>, who: Actor, q: Query)
    requires Journal(log)
    ensures var rows := Listing(c, log, who, q, Cutoff(log, who), None);
            (forall e :: e in rows <==> e in log && Wanted(c, who, q, e)) && Distinct(rows) &&
            forall i, j :: 0 <= i < j < |rows| ==> Before(rows[i], rows[j])
  {
    var rows := Listing(c, log, who, q, Cutoff(log, who), None);
    ListingIsSorted(c, log, who, q, Cutoff(log, who), None);
    forall e | e in log && Wanted(c, who, q, e) ensures e in rows {
      var i :| 0 <= i < |log| && log[i] == e;
      CutoffCoversVisible(log, who, i);
    }
    forall i, j | 0 <= i < j < |rows| ensures Before(rows[i], rows[j]) {
      assert Order()(rows[i], rows[j]);
    }
  }

  function NewestId(log: seq<Event>, who: Actor): Option<nat> {
    if Newest(log, who).Some? then Some(Newest(log, who).value.id) else None
  }

  // The start of these rows, with a cursor at its last event exactly if more rows follow.
  predicate IsPage(page: Page, rows: seq<Event>, limit: nat, cutoff: nat) {
    page.items == Take(rows, limit) && (page.next.Some? <==> |rows| > limit) &&
    (page.next.Some? ==> limit > 0 && page.next.value.snapshot.cutoff == cutoff && page.next.value.key == KeyOf(rows[limit - 1]))
  }

  // Pages read so far, and the next one.
  lemma PageExtends(rows: seq<Event>, all: seq<Event>, page: Page, limit: nat, cutoff: nat)
    requires all <= rows && |all| < |rows| && limit > 0 && IsPage(page, rows[|all|..], limit, cutoff)
    ensures all + page.items <= rows && |all| < |all + page.items|
    ensures page.next.None? ==> all + page.items == rows
    ensures page.next.Some? ==> |all + page.items| < |rows| &&
                                page.next.value.key == KeyOf(rows[|all + page.items| - 1])
  {
    assert rows == rows[..|all|] + rows[|all|..];
    if page.next.Some? { assert rows[|all|..][limit - 1] == rows[|all| + limit - 1]; }
  }

  // The page after a position of the first listing, read from the journal as it is now.
  lemma NextExtends(c: Contains, log: seq<Event>, later: seq<Event>, who: Actor, q: Query, cutoff: nat, all: seq<Event>,
                    page: Page, limit: nat, key: Key)
    requires Journal(log) && Journal(later) && log <= later && cutoff <= Latest(log) && limit > 0
    requires var rows := Listing(c, log, who, q, cutoff, None);
             all <= rows && 0 < |all| < |rows| && key == KeyOf(rows[|all| - 1])
    requires IsPage(page, Listing(c, later, who, q, cutoff, Some(key)), limit, cutoff)
    ensures var rows := Listing(c, log, who, q, cutoff, None);
            all + page.items <= rows && |all| < |all + page.items| && (page.next.None? ==> all + page.items == rows) &&
            (page.next.Some? ==> |all + page.items| < |rows| && page.next.value.key == KeyOf(rows[|all + page.items| - 1]))
  {
    RestOfListing(c, log, later, who, q, cutoff, |all|);
    PageExtends(Listing(c, log, who, q, cutoff, None), all, page, limit, cutoff);
  }

  // An unexpired snapshot of this reader, query and cutoff.
  predicate Reusable(snapshots: set<Snapshot>, clock: nat, who: Actor, q: Query, cutoff: nat) {
    exists s :: s in snapshots && s.expires > clock && s.owner == who.id && s.query == q && s.cutoff == cutoff
  }

  class AuditService {
    const contains: Contains
    var log: seq<Event>
    var snapshots: set<Snapshot>
    var cursors: map<Cursor, nat>
    var clock: nat

    constructor (contains: Contains)
      ensures Valid() && log == [] && this.contains == contains
    {
      this.contains := contains;
      log, snapshots, cursors, clock := [], {}, map[], 0;
    }

    ghost predicate Valid()
      reads this
    {
      Journal(log) && (forall s :: s in snapshots ==> s.cutoff <= Latest(log)) &&
      forall c :: c in cursors ==> cursors[c] == c.snapshot.expires
    }

    // Others append to the journal and read it, and time passes.
    method Interfere()
      requires Valid()
      modifies this`log, this`clock, this`snapshots
      ensures Valid() && old(log) <= log && clock >= old(clock)
      ensures forall s :: s in old(snapshots) && s.expires > clock ==> s in snapshots
    {
      var more: nat, passed: nat := *, *;
      var n := 0;
      while n < more
        invariant Valid() && old(log) <= log && clock == old(clock) && snapshots == old(snapshots)
        decreases more - n
      {
        var e: Event := *;
        Append(e);
        n := n + 1;
      }
      clock := clock + passed;
      var who: Actor, q: Query := *, *;
      CutoffIsOld(log, who);
      var other := Reserve(who, q, Cutoff(log, who), NewestId(log, who));
    }

    // The next number is assigned here; an event with a known id is not written.
    method Append(e: Event)
      requires Valid()
      modifies this`log
      ensures Valid() && old(log) <= log
      ensures (exists i :: 0 <= i < |old(log)| && old(log)[i].id == e.id) ==> log == old(log)
      ensures (forall i :: 0 <= i < |old(log)| ==> old(log)[i].id != e.id) ==>
                log == old(log) + [e.(number := Latest(old(log)) + 1)]
    {
      if forall i :: 0 <= i < |log| ==> log[i].id != e.id {
        log := log + [e.(number := Latest(log) + 1)];
      }
    }

    // A snapshot that is still valid is used again.
    method Reserve(who: Actor, q: Query, cutoff: nat, newest: Option<nat>) returns (s: Snapshot)
      requires Valid() && cutoff <= Latest(log)
      modifies this`snapshots
      ensures Valid() && s in snapshots && s.owner == who.id && s.query == q && s.cutoff == cutoff && s.expires > clock
      ensures snapshots == (set x | x in old(snapshots) && x.expires > clock) + {s}
      ensures s in old(snapshots) <==> Reusable(old(snapshots), clock, who, q, cutoff)
      ensures !Reusable(old(snapshots), clock, who, q, cutoff) ==> s == Snapshot(who.id, q, cutoff, newest, clock + 900)
    {
      snapshots := set x | x in snapshots && x.expires > clock;
      if found :| found in snapshots && found.owner == who.id && found.query == q && found.cutoff == cutoff {
        return found;
      }
      assert !Reusable(old(snapshots), clock, who, q, cutoff);
      s := Snapshot(who.id, q, cutoff, newest, clock + CursorSeconds);
      snapshots := snapshots + {s};
    }

    // Nothing else than this reader's own, unexpired position is accepted.
    predicate Accepted(who: Actor, q: Query, cursor: Cursor)
      reads this
    {
      cursor in cursors && cursor.owner == who.id && cursor.query == q && cursors[cursor] > clock &&
      cursor.snapshot in snapshots && cursor.snapshot.owner == who.id && cursor.snapshot.query == q &&
      cursor.snapshot.expires > clock
    }

    /** A cursor is accepted exactly if it was given out to this reader for this query, and it and its snapshot, which are
        of this reader and query too, have not expired. */
    lemma AcceptedIff(who: Actor, q: Query, cursor: Cursor)
      ensures Accepted(who, q, cursor) <==>
              cursor in cursors && cursors[cursor] > clock && cursor.owner == who.id && cursor.query == q &&
              cursor.snapshot in snapshots && cursor.snapshot.expires > clock && cursor.snapshot.owner == who.id &&
              cursor.snapshot.query == q
    {
    }

    /** One page. Without a cursor it is the start of the listing up to the newest visible event; with one it is what
        follows its position in the listing of the snapshot. A next cursor is given exactly when events remain. */
    method QueryPage(who: Actor, q: Query, limit: nat, cursor: Option<Cursor>) returns (page: Option<Page>)
      requires Valid() && limit > 0
      modifies this`snapshots, this`cursors
      ensures Valid()
      ensures page.None? <==> cursor.Some? && !old(Accepted(who, q, cursor.value))
      ensures page.Some? && cursor.None? ==>
                IsPage(page.value, Listing(contains, log, who, q, Cutoff(log, who), None), limit, Cutoff(log, who)) &&
                page.value.newest == NewestId(log, who)
      ensures page.Some? && cursor.Some? ==>
                var s := cursor.value.snapshot;
                IsPage(page.value, Listing(contains, log, who, q, s.cutoff, Some(cursor.value.key)), limit, s.cutoff) &&
                page.value.newest == s.newest && (page.value.next.Some? ==> page.value.next.value.snapshot == s)
      ensures page.Some? && page.value.next.Some? ==> Accepted(who, q, page.value.next.value)
    {
      if cursor.None? {
        var first := FirstPage(who, q, limit);
        return Some(first);
      }
      if !Accepted(who, q, cursor.value) {
        return None;
      }
      var s := cursor.value.snapshot;
      var rows := Take(Listing(contains, log, who, q, s.cutoff, Some(cursor.value.key)), limit + 1);
      var next := NextPage(who, q, limit, s, rows);
      return Some(next);
    }

    method FirstPage(who: Actor, q: Query, limit: nat) returns (page: Page)
      requires Valid() && limit > 0
      modifies this`snapshots, this`cursors
      ensures Valid()
      ensures IsPage(page, Listing(contains, log, who, q, Cutoff(log, who), None), limit, Cutoff(log, who))
      ensures page.newest == NewestId(log, who)
      ensures page.next.Some? ==> Accepted(who, q, page.next.value)
      ensures page.next.Some? && !Reusable(old(snapshots), clock, who, q, Cutoff(log, who)) ==>
                page.next.value.snapshot.expires == clock + CursorSeconds
    {
      CutoffIsOld(log, who);
      var cutoff, newest := Cutoff(log, who), NewestId(log, who);
      var rows := Take(Listing(contains, log, who, q, cutoff, None), limit + 1);
      if |rows| <= limit {
        return Page(rows, None, newest);
      }
      var s := Reserve(who, q, cutoff, newest);
      page := NextPage(who, q, limit, s, rows);
      page := page.(newest := newest);
    }

    // The page of the rows that were read, one more than fit at most.
    method NextPage(who: Actor, q: Query, limit: nat, s: Snapshot, rows: seq<Event>) returns (page: Page)
      requires Valid() && limit > 0 && s in snapshots && s.owner == who.id && s.query == q && s.expires > clock
      modifies this`cursors
      ensures Valid() && page.items == Take(rows, limit) && page.newest == s.newest
      ensures page.next == if |rows| <= limit then None else Some(Cursor(who.id, q, s, KeyOf(rows[limit - 1])))
      ensures page.next.Some? ==> Accepted(who, q, page.next.value)
      ensures forall c :: c in old(cursors) ==> c in cursors && cursors[c] == old(cursors)[c]
    {
      var items := Take(rows, limit);
      if |rows| <= limit {
        return Page(items, None, s.newest);
      }
      var next := Cursor(who.id, q, s, KeyOf(items[|items| - 1]));
      cursors := cursors[next := s.expires];
      return Page(items, Some(next), s.newest);
    }

    // What has been read is a proper start of the rows, and the cursor stands at its end.
    ghost predicate Midway(rows: seq<Event>, all: seq<Event>, cursor: Cursor, cutoff: nat) {
      all <= rows && 0 < |all| < |rows| && cursor.key == KeyOf(rows[|all| - 1]) && cursor.snapshot.cutoff == cutoff
    }

    // The page at a cursor, after others had time to act.
    method Follow(who: Actor, q: Query, limit: nat, cursor: Cursor, ghost first: seq<Event>, ghost cutoff: nat, all: seq<Event>)
      returns (ok: bool, more: seq<Event>, next: Option<Cursor>)
      requires Valid() && limit > 0 && Journal(first) && first <= log && cutoff <= Latest(first)
      requires Midway(Listing(contains, first, who, q, cutoff, None), all, cursor, cutoff) && Accepted(who, q, cursor)
      modifies this
      ensures Valid() && old(log) <= log && clock >= old(clock)
      ensures ok <==> clock < cursor.snapshot.expires
      ensures ok && next.Some? ==> Accepted(who, q, next.value) && next.value.snapshot == cursor.snapshot
      ensures var rows := Listing(contains, first, who, q, cutoff, None);
              ok ==> |all| < |more| && more <= rows && (next.None? ==> more == rows) &&
                     (next.Some? ==> Midway(rows, more, next.value, cutoff))
    {
      Interfere();
      var page := QueryPage(who, q, limit, Some(cursor));
      if page.None? {
        return false, all, None;
      }
      NextExtends(contains, first, log, who, q, cutoff, all, page.value, limit, cursor.key);
      return true, all + page.value.items, page.value.next;
    }

    /** Following the cursors while others append and read: the pages put together are the start of the listing that
        existed when the first page was read, in its order, without a gap or a repetition. They are all of it unless the
        snapshot of the first page expires on the way, which is 900 seconds after it was made. */
    method ReadAll(who: Actor, q: Query, limit: nat) returns (complete: bool, all: seq<Event>, ghost expires: nat)
      requires Valid() && limit > 0
      modifies this
      ensures Valid() && old(log) <= log && expires > old(clock)
      ensures !Reusable(old(snapshots), old(clock), who, q, Cutoff(old(log), who)) ==> expires == old(clock) + 900
      ensures clock < expires ==> complete
      ensures var rows := Listing(contains, old(log), who, q, Cutoff(old(log), who), None);
              all <= rows && (complete ==> all == rows)
    {
      CutoffIsOld(log, who);
      ghost var first, cutoff := log, Cutoff(log, who);
      ghost var rows := Listing(contains, first, who, q, cutoff, None);
      var page := FirstPage(who, q, limit);
      all := page.items;
      var next := page.next;
      complete := true;
      expires := if next.Some? then next.value.snapshot.expires else clock + CursorSeconds;
      while next.Some? && complete
        invariant Valid() && first <= log && all <= rows
        invariant next.Some? && complete ==> Accepted(who, q, next.value) && next.value.snapshot.expires == expires
        invariant !complete ==> clock >= expires
        invariant complete && next.None? ==> all == rows
        invariant next.Some? && complete ==> Midway(rows, all, next.value, cutoff)
        decreases |rows| - |all|, complete
      {
        var more, following;
        complete, more, following := Follow(who, q, limit, next.value, first, cutoff, all);
        if complete {
          all, next := more, following;
        }
      }
    }
  }
}
