/**
 * The shared order-book view (src/orderbook_state.rs): four independently set
 * level slots and a notification, written by the subscription callback and read
 * by the decision routine. The mutexes around each slot only order the two
 * accessors; a slot is modelled as a plain field.
 */
module OrderbookState {
  import opened Wrappers
  import opened Structs
  import opened Notification

  /** A read of the four slots at one moment. */
  datatype BookSlots = BookSlots(firstBid: Option<Level>, secondBid: Option<Level>,
                                 thirdBid: Option<Level>, firstAsk: Option<Level>)

  /** The view before any snapshot has arrived. */
  const NoData := BookSlots(None, None, None, None)

  class OrderBookState {
    var firstBid: Option<Level>
    var secondBid: Option<Level>
    var thirdBid: Option<Level>
    var firstAsk: Option<Level>
    const notify: Notify

    function Slots(): BookSlots
      reads this
    {
      BookSlots(firstBid, secondBid, thirdBid, firstAsk)
    }

    /** `OrderBookState::new`: every slot empty, a fresh notification with nothing owed. */
    constructor ()
      ensures Slots() == NoData
      ensures fresh(notify) && notify.Valid() && !notify.Pending() && notify.notifyCalls == 0
    {
      firstBid, secondBid, thirdBid, firstAsk := None, None, None, None;
      notify := new Notify();
    }
  }

  /** Index of the first SELL level of `inserts`, or `|inserts|` when there is none. */
  function FirstSellIndex(inserts: seq<Level>): (k: nat)
    ensures k <= |inserts|
    ensures k < |inserts| ==> inserts[k].side == Sell
    ensures forall j :: 0 <= j < k ==> inserts[j].side != Sell
  {
    if inserts == [] then 0
    else if inserts[0].side == Sell then 0
    else 1 + FirstSellIndex(inserts[1..])
  }

  /** What `inserts.iter().find(|level| level.side == SELL)` yields. */
  function FirstSell(inserts: seq<Level>): (r: Option<Level>)
    ensures r.None? <==> forall j :: 0 <= j < |inserts| ==> inserts[j].side != Sell
    ensures r.Some? ==> r.value.side == Sell && r.value in inserts
  {
    var k := FirstSellIndex(inserts);
    if k < |inserts| then Some(inserts[k]) else None
  }

  /** The scan of `inserts` for its first SELL level. */
  method FindFirstSell(inserts: seq<Level>) returns (r: Option<Level>)
    ensures r == FirstSell(inserts)
  {
    var i := 0;
    while i < |inserts|
      invariant 0 <= i <= |inserts|
      invariant forall j :: 0 <= j < i ==> inserts[j].side != Sell
    {
      if inserts[i].side == Sell {
        FirstSellIndexIs(inserts, i);
        return Some(inserts[i]);
      }
      i := i + 1;
    }
    FirstSellIndexIs(inserts, |inserts|);
    r := None;
  }

  /** The first SELL index is characterised by its contract: it is the only index that satisfies it. */
  lemma FirstSellIndexIs(inserts: seq<Level>, k: nat)
    requires k <= |inserts|
    requires k < |inserts| ==> inserts[k].side == Sell
    requires forall j :: 0 <= j < k ==> inserts[j].side != Sell
    ensures FirstSellIndex(inserts) == k
  {
  }

  /** The view after one snapshot with the given inserts has been copied into `b`. */
  function Ingest(b: BookSlots, inserts: seq<Level>): BookSlots
  {
    BookSlots(
      if |inserts| >= 1 then Some(inserts[0]) else b.firstBid,
      if |inserts| >= 2 then Some(inserts[1]) else b.secondBid,
      if |inserts| >= 3 then Some(inserts[2]) else b.thirdBid,
      if FirstSell(inserts).Some? then FirstSell(inserts) else b.firstAsk)
  }

  /** The view after a run of snapshots has been copied into `b`, in delivery order. */
  function IngestAll(b: BookSlots, snapshots: seq<OrderBook>): BookSlots
  {
    if snapshots == [] then b
    else Ingest(IngestAll(b, snapshots[..|snapshots| - 1]), snapshots[|snapshots| - 1].inserts)
  }

  /** The bid slot at position `k` (0, 1 or 2) of a view. */
  function BidSlot(b: BookSlots, k: nat): Option<Level>
    requires k < 3
  {
    if k == 0 then b.firstBid else if k == 1 then b.secondBid else b.thirdBid
  }

  /**
   * `extract_data_from_snapshot`: copy the first three inserts, by position and
   * whatever their side, into the bid slots, the first SELL insert into the ask
   * slot, then notify once.
   */
  method ExtractDataFromSnapshot(obSnapshot: OrderBook, clones: OrderBookState)
    requires clones.notify.Valid()
    modifies clones, clones.notify
    ensures clones.Slots() == Ingest(old(clones.Slots()), obSnapshot.inserts)
    ensures clones.notify.Valid() && clones.notify.Pending()
    ensures clones.notify.notifyCalls == old(clones.notify.notifyCalls) + 1
    ensures old(clones.notify.waiter) == Waiting ==>
      clones.notify.waiter == Woken && clones.notify.permit == old(clones.notify.permit)
    ensures old(clones.notify.waiter) != Waiting ==>
      clones.notify.waiter == old(clones.notify.waiter) && clones.notify.permit
  {
    var inserts := obSnapshot.inserts;
    if |inserts| >= 1 {
      clones.firstBid := Some(inserts[0]);
    }
    if |inserts| >= 2 {
      clones.secondBid := Some(inserts[1]);
    }
    if |inserts| >= 3 {
      clones.thirdBid := Some(inserts[2]);
    }
    var firstAskLevel := FindFirstSell(inserts);
    if firstAskLevel.Some? {
      clones.firstAsk := firstAskLevel;
    }
    clones.notify.NotifyOne();
  }

  /**
   * Slot by slot: bid slot `k` takes the `k`-th insert when there is one and keeps
   * its value otherwise; the ask slot takes the lowest-index SELL insert when there
   * is one and keeps its value otherwise.
   */
  lemma IngestSlots(b: BookSlots, inserts: seq<Level>, k: nat)
    requires k < 3
    ensures k < |inserts| ==> BidSlot(Ingest(b, inserts), k) == Some(inserts[k])
    ensures |inserts| <= k ==> BidSlot(Ingest(b, inserts), k) == BidSlot(b, k)
    ensures (exists j :: 0 <= j < |inserts| && inserts[j].side == Sell) ==>
      exists j :: 0 <= j < |inserts| && inserts[j].side == Sell &&
        Ingest(b, inserts).firstAsk == Some(inserts[j]) &&
        forall i :: 0 <= i < j ==> inserts[i].side != Sell
    ensures (forall j :: 0 <= j < |inserts| ==> inserts[j].side != Sell) ==>
      Ingest(b, inserts).firstAsk == b.firstAsk
  {
    var f := FirstSellIndex(inserts);
    if f < |inserts| {
      assert Ingest(b, inserts).firstAsk == Some(inserts[f]);
    }
  }

  /** Bid slots are filled by position only: a SELL insert lands in the first bid slot. */
  lemma SellLevelCanBeFirstBid(b: BookSlots, ask: Level)
    requires ask.side == Sell
    ensures Ingest(b, [ask]).firstBid == Some(ask)
    ensures Ingest(b, [ask]).firstAsk == Some(ask)
  {
    assert FirstSellIndex([ask]) == 0;
  }

  /**
   * A later snapshot that writes every slot an earlier one wrote hides the earlier
   * one completely; in particular ingesting a snapshot twice is ingesting it once.
   */
  lemma LaterSnapshotWins(b: BookSlots, s1: seq<Level>, s2: seq<Level>)
    requires |s2| >= |s1| || |s2| >= 3
    requires FirstSell(s1).Some? ==> FirstSell(s2).Some?
    ensures Ingest(Ingest(b, s1), s2) == Ingest(b, s2)
  {
  }

  lemma IngestIdempotent(b: BookSlots, s: seq<Level>)
    ensures Ingest(Ingest(b, s), s) == Ingest(b, s)
  {
    LaterSnapshotWins(b, s, s);
  }

  /** Snapshots only ever fill slots: a slot that held a level still holds one afterwards. */
  lemma {:induction false} IngestAllKeepsFilled(b: BookSlots, snapshots: seq<OrderBook>)
    ensures b.firstBid.Some? ==> IngestAll(b, snapshots).firstBid.Some?
    ensures b.secondBid.Some? ==> IngestAll(b, snapshots).secondBid.Some?
    ensures b.thirdBid.Some? ==> IngestAll(b, snapshots).thirdBid.Some?
    ensures b.firstAsk.Some? ==> IngestAll(b, snapshots).firstAsk.Some?
  {
    if snapshots != [] {
      IngestAllKeepsFilled(b, snapshots[..|snapshots| - 1]);
    }
  }
}
