/** Order book updates that are held back until the end of the match event, then
    dispatched security by security. */
module OrderBookBatch {
  import opened Grouping
  import opened Market
  import opened Optional
  import opened RefreshBook
  import opened Sequences

  /** One entry, without its security id. */
  datatype Item = Item(kind: LevelKind, price: Price, size: int, priority: nat, orderId: nat, action: Action)

  /** An update waiting for the end of the event. */
  datatype Pending = Pending(id: int, update: OrderUpdate)

  /** One dispatch to a security. */
  datatype Dispatch = Dispatch(id: int, orders: seq<OrderUpdate>, snapshot: bool)

  /** A message: its entries, whether it ends the event, and the securities known by then;
      `unseen` are those that have not had a report number yet. */
  datatype Message = Message(entries: seq<Keyed<Item>>, last: bool, known: Known, unseen: set<int>)

  // ---------- what a message adds ----------

  function UpdateOf(x: Item, factor: real): OrderUpdate {
    OrderUpdate(Scaled(x.price, factor), x.size, x.priority, Some(x.orderId), SideOf(x.kind), x.action)
  }

  predicate IsLive(xs: seq<Keyed<Item>>, k: nat, known: Known)
    requires k < |xs|
  {
    RunKnown(xs, StartOf(xs, k + 1), known)
  }

  function Added(xs: seq<Keyed<Item>>, k: nat, known: Known): seq<Pending>
    requires k <= |xs|
  {
    if k == 0 then [] else Added(xs, k - 1, known) + AddedBy(xs, k - 1, known)
  }

  /** Only bids and offers of known securities are kept. */
  function AddedBy(xs: seq<Keyed<Item>>, k: nat, known: Known): seq<Pending>
    requires k < |xs|
  {
    var x := xs[k];
    if IsLive(xs, k, known) && x.id in known && SideOf(x.item.kind) != Undefined
    then [Pending(x.id, UpdateOf(x.item, known[x.id]))] else []
  }

  function Touched(xs: seq<Keyed<Item>>, k: nat, known: Known): set<int>
    requires k <= |xs|
  {
    if k == 0 then {} else Touched(xs, k - 1, known) + if IsLive(xs, k - 1, known) then {xs[k - 1].id} else {}
  }

  function UpdateIn(id: int): Pending -> seq<OrderUpdate> {
    (p: Pending) => if p.id == id then [p.update] else []
  }

  /** The waiting updates of one security, in order. */
  function Waiting(ps: seq<Pending>, id: int): seq<OrderUpdate> { FlatMap(ps, UpdateIn(id)) }

  /** A flush: one dispatch for each touched security, in any order, with its own updates. */
  ghost predicate IsFlush(outs: seq<Dispatch>, ps: seq<Pending>, ids: set<int>, known: Known, unseen: set<int>) {
    && (forall i, j :: 0 <= i < j < |outs| ==> outs[i].id != outs[j].id)
    && (forall i :: 0 <= i < |outs| ==>
          outs[i].id in ids && outs[i].id in known
          && outs[i] == Dispatch(outs[i].id, Waiting(ps, outs[i].id), outs[i].id in unseen))
    && (forall id :: id in ids && id in known ==> exists i :: 0 <= i < |outs| && outs[i].id == id)
  }

  datatype State = State(pending: seq<Pending>, ids: set<int>, out: seq<Dispatch>)

  /** One message, or a channel reset. */
  datatype Event = Arrive(m: Message) | Reset

  ghost predicate Step(s: State, e: Event, s': State) {
    match e
    case Reset => s' == s.(pending := [], ids := {})
    case Arrive(m) =>
      var n := |m.entries|;
      var pending, ids := s.pending + Added(m.entries, n, m.known), s.ids + Touched(m.entries, n, m.known);
      if !m.last then s' == s.(pending := pending, ids := ids)
      else exists outs :: IsFlush(outs, pending, ids, m.known, m.unseen) && s' == State([], {}, s.out + outs)
  }

  /** What has been looked up after `k` entries: the security of the last one. */
  predicate LookedUp(xs: seq<Keyed<Item>>, k: nat, known: Known, securityId: int, security: Option<real>)
    requires k <= |xs|
  {
    if k == 0 then securityId == 0 && security == None
    else
      securityId == xs[k - 1].id == xs[StartOf(xs, k)].id && security == FactorOf(xs, StartOf(xs, k), known)
  }

  // ---------- the code ----------

  class Cache {
    var pending: seq<Pending>
    var ids: set<int>
    var orders: seq<OrderUpdate>
    var out: seq<Dispatch>

    ghost function View(): (s: State)
      reads this
    {
      State(pending, ids, out)
    }

    constructor ()
      ensures View() == State([], {}, []) && orders == []
    {
      pending, ids, orders, out := [], {}, [], [];
    }

    method OnSequenceReset()
      requires orders == []
      modifies this
      ensures Step(old(View()), Reset, View()) && orders == []
    {
      orders := [];
      pending := [];
      ids := {};
    }

    method Handle(m: Message)
      requires orders == []
      modifies this
      ensures Step(old(View()), Arrive(m), View()) && orders == []
    {
      Collect(m.entries, m.known);
      if !m.last {
        return;
      }
      ghost var ps, touched := pending, ids;
      var outs := Flush(m.known, m.unseen);
      assert IsFlush(outs, ps, touched, m.known, m.unseen);
      pending, ids := [], {};
    }

    method Collect(xs: seq<Keyed<Item>>, known: Known)
      modifies `pending, `ids
      ensures pending == old(pending) + Added(xs, |xs|, known)
      ensures ids == old(ids) + Touched(xs, |xs|, known)
    {
      var securityId, security := 0, None;
      var k := 0;
      while k < |xs|
        invariant 0 <= k <= |xs| && LookedUp(xs, k, known, securityId, security)
        invariant pending == old(pending) + Added(xs, k, known)
        invariant ids == old(ids) + Touched(xs, k, known)
      {
        securityId, security := Switch(xs, k, known, securityId, security, old(ids));
        Keep(xs, k, known, security);
        Rebracket(old(pending), Added(xs, k, known), AddedBy(xs, k, known));
        k := k + 1;
      }
    }

    /** Looks up the security of entry `k`, unless it is that of the entry before. */
    method Switch(
      xs: seq<Keyed<Item>>, k: nat, known: Known, securityId: int, security: Option<real>, ghost before: set<int>)
      returns (securityId': int, security': Option<real>)
      requires k < |xs| && LookedUp(xs, k, known, securityId, security) && ids == before + Touched(xs, k, known)
      modifies `ids
      ensures LookedUp(xs, k + 1, known, securityId', security') && ids == before + Touched(xs, k + 1, known)
    {
      securityId', security' := securityId, security;
      if xs[k].id != securityId {
        securityId' := xs[k].id;
        security' := if xs[k].id in known then Some(known[xs[k].id]) else None;
        if security'.Some? {
          ids := ids + {securityId'};
        }
      } else if k > 0 && security.Some? {
        assert IsLive(xs, k - 1, known) && xs[k - 1].id in Touched(xs, k, known);
      }
    }

    /** Keeps entry `k` if it is a bid or an offer. */
    method Keep(xs: seq<Keyed<Item>>, k: nat, known: Known, security: Option<real>)
      requires k < |xs| && security == FactorOf(xs, StartOf(xs, k + 1), known) && xs[StartOf(xs, k + 1)].id == xs[k].id
      modifies `pending
      ensures pending == old(pending) + AddedBy(xs, k, known)
    {
      if security.Some? {
        match xs[k].item.kind {
          case Bid => pending := pending + [Pending(xs[k].id, UpdateOf(xs[k].item, security.value))];
          case Offer => pending := pending + [Pending(xs[k].id, UpdateOf(xs[k].item, security.value))];
          case _ =>
        }
      }
    }

    /** Iterates over the touched securities in an unspecified order. */
    method Flush(known: Known, unseen: set<int>) returns (outs: seq<Dispatch>)
      requires orders == []
      modifies `out, `orders
      ensures orders == [] && out == old(out) + outs
      ensures IsFlush(outs, pending, ids, known, unseen)
    {
      outs := [];
      var todo := ids;
      ghost var done := {};
      while todo != {}
        invariant orders == [] && done + todo == ids && done !! todo
        invariant out == old(out) + outs && IsFlush(outs, pending, done, known, unseen)
      {
        var id := AnyOf(todo);
        var one := FlushOne(id, known, unseen, outs, done);
        Rebracket(old(out), outs, one);
        outs := outs + one;
        todo := todo - {id};
        done := done + {id};
      }
      assert done == ids;
    }

    method FlushOne(id: int, known: Known, unseen: set<int>, ghost outs: seq<Dispatch>, ghost done: set<int>)
      returns (one: seq<Dispatch>)
      requires orders == [] && IsFlush(outs, pending, done, known, unseen) && id !in done
      modifies `out, `orders
      ensures orders == [] && out == old(out) + one
      ensures IsFlush(outs + one, pending, done + {id}, known, unseen)
    {
      one := [];
      if id in known {
        CopyOrders(id);
        var d := Dispatch(id, orders, id in unseen);
        FlushOneMore(outs, pending, done, known, unseen, d);
        one := [d];
        out := out + one;
        orders := [];
      } else {
        assert outs + [] == outs;
      }
    }

    method CopyOrders(id: int)
      requires orders == []
      modifies `orders
      ensures orders == Waiting(pending, id)
    {
      var i := 0;
      while i < |pending|
        invariant 0 <= i <= |pending| && orders == Flat(pending, i, UpdateIn(id))
      {
        if pending[i].id == id {
          orders := orders + [pending[i].update];
        }
        i := i + 1;
      }
    }
  }

  /** Any element: the iteration order is unspecified. */
  method AnyOf<T(==)>(s: set<T>) returns (x: T)
    requires s != {}
    ensures x in s
  {
    x :| x in s;
  }

  lemma FlushOneMore(outs: seq<Dispatch>, ps: seq<Pending>, ids: set<int>, known: Known, unseen: set<int>, d: Dispatch)
    requires IsFlush(outs, ps, ids, known, unseen) && d.id !in ids && d.id in known
    requires d == Dispatch(d.id, Waiting(ps, d.id), d.id in unseen)
    ensures IsFlush(outs + [d], ps, ids + {d.id}, known, unseen)
  {
    var outs' := outs + [d];
    forall id | id in ids + {d.id} && id in known
      ensures exists i :: 0 <= i < |outs'| && outs'[i].id == id
    {
      if id == d.id {
        assert outs'[|outs|].id == id;
      } else {
        var i :| 0 <= i < |outs| && outs[i].id == id;
        assert outs'[i].id == id;
      }
    }
  }
}
