/** The client's inbox: events and list loads merged without duplicates, newest first
    (frontend/src/account/mailbox.ts). */
module Mailbox {

  datatype Email = Email(id: nat, text: string)

  predicate Has(inbox: seq<Email>, id: nat) { exists i :: 0 <= i < |inbox| && inbox[i].id == id }

  /** A stable sort by id, highest first. */
  function SortDescending(emails: seq<Email>): seq<Email> {
    if emails == [] then [] else Insert(emails[0], SortDescending(emails[1..]))
  }

  function Insert(e: Email, sorted: seq<Email>): seq<Email> {
    if sorted == [] || e.id >= sorted[0].id then [e] + sorted
    else [sorted[0]] + Insert(e, sorted[1..])
  }

  function ApplyEmailEvent(inbox: seq<Email>, incoming: Email): seq<Email> {
    if Has(inbox, incoming.id) then inbox else SortDescending([incoming] + inbox)
  }

  /** `loaded.reduce(applyEmailEvent, known)`. */
  function MergeInbox(known: seq<Email>, loaded: seq<Email>): seq<Email> {
    if loaded == [] then known
    else ApplyEmailEvent(MergeInbox(known, loaded[..|loaded| - 1]), loaded[|loaded| - 1])
  }

  // ----- newest first, no id twice

  ghost predicate Descending(inbox: seq<Email>) {
    forall i, j :: 0 <= i < j < |inbox| ==> inbox[i].id > inbox[j].id
  }

  lemma {:induction false} SortKeepsSorted(sorted: seq<Email>)
    requires Descending(sorted)
    ensures SortDescending(sorted) == sorted
  {
    if sorted != [] {
      SortKeepsSorted(sorted[1..]);
      assert sorted == [sorted[0]] + sorted[1..];
    }
  }

  lemma ConsDescending(head: Email, tail: seq<Email>)
    requires Descending(tail) && forall e :: e in tail ==> e.id < head.id
    ensures Descending([head] + tail)
  {
    forall j | 0 <= j < |tail| ensures tail[j].id < head.id { assert tail[j] in tail; }
  }

  lemma {:induction false} InsertMembers(e: Email, sorted: seq<Email>)
    ensures forall x :: x in Insert(e, sorted) <==> x == e || x in sorted
    ensures |Insert(e, sorted)| == |sorted| + 1
  {
    if sorted != [] && e.id < sorted[0].id {
      InsertMembers(e, sorted[1..]);
      assert sorted == [sorted[0]] + sorted[1..];
    }
  }

  lemma TailHasNoMore(sorted: seq<Email>, id: nat)
    requires sorted != []
    ensures Has(sorted[1..], id) ==> Has(sorted, id)
  {
    if Has(sorted[1..], id) {
      var i :| 0 <= i < |sorted[1..]| && sorted[1..][i].id == id;
      assert sorted[i + 1].id == id;
    }
  }

  lemma {:induction false} InsertKeeps(e: Email, sorted: seq<Email>)
    requires Descending(sorted) && !Has(sorted, e.id)
    ensures Descending(Insert(e, sorted))
  {
    if sorted == [] || e.id >= sorted[0].id {
      assert sorted != [] ==> sorted[0].id != e.id;
    } else {
      var head, tail := sorted[0], sorted[1..];
      TailHasNoMore(sorted, e.id);
      InsertKeeps(e, tail);
      InsertMembers(e, tail);
      ConsDescending(head, Insert(e, tail));
    }
  }

  /** A new message lands in its place and nothing else changes; a known id changes nothing. */
  lemma ApplyKeeps(inbox: seq<Email>, incoming: Email)
    requires Descending(inbox)
    ensures var after := ApplyEmailEvent(inbox, incoming);
      && Descending(after)
      && (Has(inbox, incoming.id) ==> after == inbox)
      && (!Has(inbox, incoming.id) ==>
            |after| == |inbox| + 1 && forall x :: x in after <==> x == incoming || x in inbox)
  {
    if !Has(inbox, incoming.id) {
      SortKeepsSorted(inbox);
      assert ([incoming] + inbox)[1..] == inbox;
      InsertKeeps(incoming, inbox);
      InsertMembers(incoming, inbox);
    }
  }

  lemma HasByMember(inbox: seq<Email>, id: nat)
    ensures Has(inbox, id) <==> exists e :: e in inbox && e.id == id
  {
    if Has(inbox, id) {
      var i :| 0 <= i < |inbox| && inbox[i].id == id;
      assert inbox[i] in inbox;
    }
  }

  lemma ApplyIds(inbox: seq<Email>, incoming: Email, id: nat)
    requires Descending(inbox)
    ensures Has(ApplyEmailEvent(inbox, incoming), id) <==> Has(inbox, id) || id == incoming.id
    ensures forall e :: e in ApplyEmailEvent(inbox, incoming) ==> e in inbox || e == incoming
  {
    ApplyKeeps(inbox, incoming);
    if !Has(inbox, incoming.id) {
      HasByMember(inbox, id);
      HasByMember(ApplyEmailEvent(inbox, incoming), id);
    }
  }

  /** Whatever comes, as event or in a list: newest first, no id twice, exactly the ids seen. */
  lemma {:induction false} MergeIsUnion(known: seq<Email>, loaded: seq<Email>)
    requires Descending(known)
    ensures Descending(MergeInbox(known, loaded))
    ensures forall id :: Has(MergeInbox(known, loaded), id) <==> Has(known, id) || Has(loaded, id)
    ensures forall e :: e in MergeInbox(known, loaded) ==> e in known || e in loaded
  {
    if loaded != [] {
      var init, last := loaded[..|loaded| - 1], loaded[|loaded| - 1];
      MergeIsUnion(known, init);
      ApplyKeeps(MergeInbox(known, init), last);
      assert loaded == init + [last];
      forall id ensures Has(MergeInbox(known, loaded), id) <==> Has(known, id) || Has(loaded, id) {
        ApplyIds(MergeInbox(known, init), last, id);
        HasByMember(init, id);
        HasByMember(loaded, id);
      }
      ApplyIds(MergeInbox(known, init), last, last.id);
    }
  }

  // ----- any interleaving

  /** What reaches a tab: single events and list loads. */
  datatype Arrival = Event(email: Email) | Load(emails: seq<Email>)

  function Receive(inbox: seq<Email>, arrivals: seq<Arrival>): seq<Email> {
    if arrivals == [] then inbox
    else
      var before := Receive(inbox, arrivals[..|arrivals| - 1]);
      match arrivals[|arrivals| - 1]
      case Event(e) => ApplyEmailEvent(before, e)
      case Load(es) => MergeInbox(before, es)
  }

  predicate Brings(a: Arrival, id: nat) {
    match a
    case Event(e) => e.id == id
    case Load(es) => Has(es, id)
  }

  predicate Seen(arrivals: seq<Arrival>, id: nat) {
    exists i :: 0 <= i < |arrivals| && Brings(arrivals[i], id)
  }

  lemma {:induction false} InboxIsWhatWasSeen(arrivals: seq<Arrival>)
    ensures Descending(Receive([], arrivals))
    ensures forall id :: Has(Receive([], arrivals), id) <==> Seen(arrivals, id)
  {
    if arrivals != [] {
      var init, last := arrivals[..|arrivals| - 1], arrivals[|arrivals| - 1];
      InboxIsWhatWasSeen(init);
      var before := Receive([], init);
      match last {
        case Event(e) => ApplyKeeps(before, e);
        case Load(es) => MergeIsUnion(before, es);
      }
      forall id ensures Has(Receive([], arrivals), id) <==> Seen(arrivals, id) {
        match last {
          case Event(e) => ApplyIds(before, e, id);
          case Load(es) =>
        }
        SeenSplits(init, last, id);
        assert arrivals == init + [last];
      }
    }
  }

  lemma SeenSplits(init: seq<Arrival>, last: Arrival, id: nat)
    ensures Seen(init + [last], id) <==> Seen(init, id) || Brings(last, id)
  {
    var all := init + [last];
    if Seen(init, id) {
      var i :| 0 <= i < |init| && Brings(init[i], id);
      assert Brings(all[i], id);
    }
    if Brings(last, id) {
      assert Brings(all[|init|], id);
    }
  }

  lemma {:induction false} IdsDetermine(a: seq<Email>, b: seq<Email>)
    requires Descending(a) && Descending(b)
    requires forall id :: Has(a, id) <==> Has(b, id)
    ensures |a| == |b| && forall i :: 0 <= i < |a| ==> a[i].id == b[i].id
  {
    if a == [] {
      if b != [] {
        assert Has(b, b[0].id);
      }
    } else {
      assert Has(a, a[0].id) && Has(b, a[0].id);
      assert Has(b, b[0].id) && Has(a, b[0].id);
      assert a[0].id == b[0].id;
      forall id ensures Has(a[1..], id) <==> Has(b[1..], id) {
        TailHas(a, id);
        TailHas(b, id);
      }
      IdsDetermine(a[1..], b[1..]);
    }
  }

  lemma TailHas(a: seq<Email>, id: nat)
    requires Descending(a) && a != []
    ensures Has(a[1..], id) <==> Has(a, id) && id != a[0].id
  {
    if Has(a, id) && id != a[0].id {
      var i :| 0 <= i < |a| && a[i].id == id;
      assert a[1..][i - 1].id == id;
    }
  }

  /** Two tabs that saw the same ids, in whatever interleaving of events and loads, list the same
      messages in the same order. */
  lemma ArrivalOrderDoesNotMatter(these: seq<Arrival>, those: seq<Arrival>)
    requires forall id :: Seen(these, id) <==> Seen(those, id)
    ensures var a, b := Receive([], these), Receive([], those);
      |a| == |b| && forall i :: 0 <= i < |a| ==> a[i].id == b[i].id
  {
    InboxIsWhatWasSeen(these);
    InboxIsWhatWasSeen(those);
    IdsDetermine(Receive([], these), Receive([], those));
  }
}
