/** What a listing of the audit journal holds, in terms of the events' own fields. */
module AuditMeaning {
  import opened Wrappers
  import opened Sorting
  import opened AuditPages

  // The reader may see the event, and every filter that is given fits it; the period has its start and not its end.
  predicate Fits(c: Contains, who: Actor, q: Query, e: Event) {
    q.from <= e.time && e.time < q.to && (!who.admin ==> e.business) &&
    (q.company == None || q.company == Some(e.company)) && (q.action == None || q.action == Some(e.action)) &&
    (q.result == None || q.result == Some(e.result)) && (q.actor == None || q.actor == Some(e.actor)) &&
    (q.text == None || exists t :: t in e.texts && c(t, q.text.value))
  }

  // Later events first, and of two at one time the one with the greater id.
  ghost predicate NewestFirst(rows: seq<Event>) {
    forall i, j :: 0 <= i < j < |rows| ==>
      rows[i].time > rows[j].time || (rows[i].time == rows[j].time && rows[i].id > rows[j].id)
  }

  lemma SortedIsNewestFirst(rows: seq<Event>)
    requires Sorted(Order(), rows)
    ensures NewestFirst(rows)
  {
    forall i, j | 0 <= i < j < |rows|
      ensures rows[i].time > rows[j].time || (rows[i].time == rows[j].time && rows[i].id > rows[j].id)
    {
      assert Order()(rows[i], rows[j]);
    }
  }

  /** The first listing holds exactly the events that fit, newest first, each once. */
  lemma FirstListingHolds(c: Contains, log: seq<Event>, who: Actor, q: Query)
    requires Journal(log)
    ensures var rows := Listing(c, log, who, q, Cutoff(log, who), None);
            NewestFirst(rows) && Distinct(rows) && forall e :: e in rows <==> e in log && Fits(c, who, q, e)
  {
    var rows := Listing(c, log, who, q, Cutoff(log, who), None);
    ListingIsSorted(c, log, who, q, Cutoff(log, who), None);
    SortedIsNewestFirst(rows);
    FirstListingIsComplete(c, log, who, q);
    forall e ensures e in rows <==> e in log && Fits(c, who, q, e) {
      assert Wanted(c, who, q, e) <==> Fits(c, who, q, e);
    }
  }

  /** The listing after a position holds exactly the events up to the cutoff that fit and come after it. */
  lemma LaterListingHolds(c: Contains, log: seq<Event>, who: Actor, q: Query, cutoff: nat, key: Key)
    requires Journal(log)
    ensures var rows := Listing(c, log, who, q, cutoff, Some(key));
            NewestFirst(rows) && Distinct(rows) &&
            forall e :: e in rows <==>
              e in log && e.number <= cutoff && Fits(c, who, q, e) &&
              (e.time < key.time || (e.time == key.time && e.id < key.id))
  {
    var rows := Listing(c, log, who, q, cutoff, Some(key));
    ListingIsSorted(c, log, who, q, cutoff, Some(key));
    SortedIsNewestFirst(rows);
    forall e ensures e in rows <==>
                       e in log && e.number <= cutoff && Fits(c, who, q, e) &&
                       (e.time < key.time || (e.time == key.time && e.id < key.id))
    {
      assert Wanted(c, who, q, e) <==> Fits(c, who, q, e);
    }
  }

  /** The cutoff of a first page is the number of the last event its reader may see, and the newest id is that event's. */
  lemma {:induction false} CutoffIsNewest(log: seq<Event>, who: Actor)
    requires Journal(log)
    ensures NewestId(log, who) == None <==> forall i :: 0 <= i < |log| ==> !who.admin && !log[i].business
    ensures NewestId(log, who) == None ==> Cutoff(log, who) == 0
    ensures NewestId(log, who) != None ==>
              exists i :: 0 <= i < |log| && (who.admin || log[i].business) && Cutoff(log, who) == log[i].number &&
                          NewestId(log, who) == Some(log[i].id) &&
                          forall j :: i < j < |log| ==> !who.admin && !log[j].business
  {
    if log != [] {
      var n := |log| - 1;
      if !Sees(who, log[n]) {
        CutoffIsNewest(log[..n], who);
        assert forall i :: 0 <= i < n ==> log[..n][i] == log[i];
      }
    }
  }
}
