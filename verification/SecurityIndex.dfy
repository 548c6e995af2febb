/** The three maps of the security definitions and the lookups through them. */
module SecurityIndex {
  import opened Optional

  datatype Security = Security(exchange: string, symbol: string, discard: bool)

  /** A security definition as it arrives, with the group and segment it is filed under. */
  datatype Definition = Definition(id: int, group: string, segment: nat, security: Security)

  datatype Index = Index(
    securities: map<int, Security>,
    groups: map<string, set<int>>,
    segments: map<nat, map<string, int>>)

  const EMPTY := Index(map[], map[], map[])

  // ---------- lookups ----------

  /** A security that is present and not discarded. */
  predicate Usable(x: Index, id: int) { id in x.securities && !x.securities[id].discard }

  function GetSecurity(x: Index, id: int): Option<Security> {
    if Usable(x, id) then Some(x.securities[id]) else None
  }

  function GroupIds(x: Index, group: string): set<int> {
    if group in x.groups then x.groups[group] else {}
  }

  function FindSecurityId(x: Index, segment: nat, symbol: string): Option<int> {
    if segment in x.segments && symbol in x.segments[segment] then Some(x.segments[segment][symbol]) else None
  }

  /** Everything that a lookup by group or by symbol can lead to is usable. */
  ghost predicate Coherent(x: Index) {
    && (forall g, id :: InGroup(x, g, id) ==> Usable(x, id))
    && (forall s, y :: FindSecurityId(x, s, y).Some? ==> Usable(x, FindSecurityId(x, s, y).value))
  }

  predicate InGroup(x: Index, group: string, id: int) { id in GroupIds(x, group) }

  // ---------- updates ----------

  function Emplaced<K, V>(m: map<K, V>, k: K, v: V): map<K, V> { if k in m then m else m[k := v] }

  function Filed(x: Index, group: string, segment: nat, symbol: string, id: int): Index {
    var symbols := if segment in x.segments then x.segments[segment] else map[];
    x.(groups := x.groups[group := GroupIds(x, group) + {id}],
       segments := x.segments[segment := Emplaced(symbols, symbol, id)])
  }

  /** A record of the definitions file: discarded symbols leave no trace. */
  function Loaded(x: Index, d: Definition): Index {
    if d.security.discard then x
    else Filed(x.(securities := Emplaced(x.securities, d.id, d.security)), d.group, d.segment, d.security.symbol, d.id)
  }

  /** The unguarded insertion. */
  function Created(x: Index, d: Definition): Index {
    var x' := if d.security.discard then x else Filed(x, d.group, d.segment, d.security.symbol, d.id);
    x'.(securities := Emplaced(x.securities, d.id, d.security))
  }

  /** A definition from the feed: known ids are left alone. */
  function Defined(x: Index, d: Definition): Index {
    if d.id in x.securities then x else Created(x, d)
  }

  /** The order path: segment and symbol to id, id to security, then the exchange. */
  datatype Route = NoMapping | MissingSecurity | WrongExchange | Routed(id: int)

  function RouteOrder(x: Index, segment: nat, symbol: string, exchange: string): Route {
    match FindSecurityId(x, segment, symbol)
    case None => NoMapping
    case Some(id) =>
      match GetSecurity(x, id)
      case None => MissingSecurity
      case Some(s) => if exchange != s.exchange then WrongExchange else Routed(id)
  }

  // ---------- the code ----------

  class SecurityDefinitions {
    var securities: map<int, Security>
    var groups: map<string, set<int>>
    var segments: map<nat, map<string, int>>

    ghost function View(): (x: Index)
      reads this
    {
      Index(securities, groups, segments)
    }

    /** Reads the records of the definitions file. */
    constructor (records: seq<Definition>)
      ensures View() == LoadAll(EMPTY, records)
    {
      securities, groups, segments := map[], map[], map[];
      new;
      var i := 0;
      while i < |records|
        invariant 0 <= i <= |records| && LoadAll(View(), records[i..]) == LoadAll(EMPTY, records)
      {
        assert records[i..][0] == records[i] && records[i..][1..] == records[i + 1..];
        Load(records[i]);
        i := i + 1;
      }
    }

    method Load(d: Definition)
      modifies this
      ensures View() == Loaded(old(View()), d)
    {
      if d.security.discard {
        return;
      }
      if d.id !in securities {
        securities := securities[d.id := d.security];
      }
      File(d);
    }

    method File(d: Definition)
      modifies `groups, `segments
      ensures View() == Filed(old(View()), d.group, d.segment, d.security.symbol, d.id)
    {
      AddToGroup(d.group, d.id);
      AddToSegment(d.segment, d.security.symbol, d.id);
    }

    method AddToGroup(group: string, id: int)
      modifies `groups
      ensures groups == old(groups)[group := GroupIds(old(View()), group) + {id}]
    {
      if group !in groups {
        groups := groups[group := {}];
      }
      groups := groups[group := groups[group] + {id}];
    }

    method AddToSegment(segment: nat, symbol: string, id: int)
      modifies `segments
      ensures segments == old(segments)[segment :=
        Emplaced(if segment in old(segments) then old(segments)[segment] else map[], symbol, id)]
    {
      if segment !in segments {
        segments := segments[segment := map[]];
      }
      if symbol !in segments[segment] {
        segments := segments[segment := segments[segment][symbol := id]];
      }
    }

    method CreateSecurity(d: Definition)
      modifies this
      ensures View() == Created(old(View()), d)
    {
      if !d.security.discard {
        File(d);
      }
      if d.id !in securities {
        securities := securities[d.id := d.security];
      }
    }

    /** The definition handlers of the feeds. */
    method OnDefinition(d: Definition)
      modifies this
      ensures View() == Defined(old(View()), d)
    {
      if d.id in securities {
        return;
      }
      CreateSecurity(d);
    }
  }

  function LoadAll(x: Index, ds: seq<Definition>): Index
    decreases |ds|
  {
    if ds == [] then x else LoadAll(Loaded(x, ds[0]), ds[1..])
  }

  function DefineAll(x: Index, ds: seq<Definition>): Index
    decreases |ds|
  {
    if ds == [] then x else DefineAll(Defined(x, ds[0]), ds[1..])
  }

  // ---------- coherence in every reachable state ----------

  lemma FiledKeeps(x: Index, group: string, segment: nat, symbol: string, id: int)
    requires Coherent(x) && Usable(x, id)
    ensures Coherent(Filed(x, group, segment, symbol, id))
  {
    var x' := Filed(x, group, segment, symbol, id);
    forall g, i | InGroup(x', g, i)
      ensures Usable(x', i)
    {
      assert i == id || InGroup(x, g, i);
    }
    forall s, y | FindSecurityId(x', s, y).Some?
      ensures Usable(x', FindSecurityId(x', s, y).value)
    {
      assert FindSecurityId(x', s, y) == Some(id) || FindSecurityId(x', s, y) == FindSecurityId(x, s, y);
    }
  }

  /** New securities do not disturb the lookups. */
  lemma MoreSecuritiesKeep(x: Index, d: Definition)
    requires Coherent(x)
    ensures Coherent(x.(securities := Emplaced(x.securities, d.id, d.security)))
  {
    var x' := x.(securities := Emplaced(x.securities, d.id, d.security));
    forall g, i | InGroup(x', g, i)
      ensures Usable(x', i)
    {
      assert InGroup(x, g, i);
    }
    forall s, y | FindSecurityId(x', s, y).Some?
      ensures Usable(x', FindSecurityId(x', s, y).value)
    {
      assert FindSecurityId(x', s, y) == FindSecurityId(x, s, y);
    }
  }

  lemma LoadedKeeps(x: Index, d: Definition)
    requires Coherent(x) && (d.id in x.securities ==> !x.securities[d.id].discard)
    ensures Coherent(Loaded(x, d))
  {
    if !d.security.discard {
      MoreSecuritiesKeep(x, d);
      var x' := x.(securities := Emplaced(x.securities, d.id, d.security));
      FiledKeeps(x', d.group, d.segment, d.security.symbol, d.id);
    }
  }

  lemma {:induction false} LoadAllKeeps(x: Index, ds: seq<Definition>)
    requires Coherent(x) && forall id :: id in x.securities ==> !x.securities[id].discard
    ensures Coherent(LoadAll(x, ds))
    decreases |ds|
  {
    if ds != [] {
      LoadedKeeps(x, ds[0]);
      LoadAllKeeps(Loaded(x, ds[0]), ds[1..]);
    }
  }

  lemma DefinedKeeps(x: Index, d: Definition)
    requires Coherent(x)
    ensures Coherent(Defined(x, d))
  {
    if d.id !in x.securities {
      MoreSecuritiesKeep(x, d);
      if !d.security.discard {
        var x' := x.(securities := Emplaced(x.securities, d.id, d.security));
        FiledKeeps(x', d.group, d.segment, d.security.symbol, d.id);
      }
    }
  }

  lemma {:induction false} DefineAllKeeps(x: Index, ds: seq<Definition>)
    requires Coherent(x)
    ensures Coherent(DefineAll(x, ds))
    decreases |ds|
  {
    if ds != [] {
      DefinedKeeps(x, ds[0]);
      DefineAllKeeps(Defined(x, ds[0]), ds[1..]);
    }
  }

  /** After any definitions file and any feed definitions, an order is never routed into
      the fatal branch, and every id of a group is usable. */
  lemma NoOrderHitsMissingSecurity(file: seq<Definition>, feed: seq<Definition>,
                                   segment: nat, symbol: string, exchange: string)
    ensures var x := DefineAll(LoadAll(EMPTY, file), feed);
      Coherent(x) && RouteOrder(x, segment, symbol, exchange) != MissingSecurity
  {
    assert forall g, id :: !InGroup(EMPTY, g, id);
    LoadAllKeeps(EMPTY, file);
    DefineAllKeeps(LoadAll(EMPTY, file), feed);
  }

  /** When the file is read a second time to publish its records, every record that is not
      discarded finds its security, so that fatal branch is unreachable too. */
  lemma {:induction false} EveryRecordIsUsable(x: Index, file: seq<Definition>, i: nat)
    requires i < |file| && !file[i].security.discard
    requires forall id :: id in x.securities ==> !x.securities[id].discard
    ensures Usable(LoadAll(x, file), file[i].id)
    decreases |file|
  {
    var x' := Loaded(x, file[0]);
    if i == 0 {
      StaysUsable(x', file[1..], file[0].id);
    } else {
      EveryRecordIsUsable(x', file[1..], i - 1);
    }
  }

  lemma {:induction false} StaysUsable(x: Index, file: seq<Definition>, id: int)
    requires Usable(x, id)
    ensures Usable(LoadAll(x, file), id)
    decreases |file|
  {
    if file != [] {
      StaysUsable(Loaded(x, file[0]), file[1..], id);
    }
  }

  /** The guard is what keeps it so: inserting without it is safe exactly if the new
      definition is discarded or the id is not already there as a discarded security. */
  lemma UnguardedCreateIff(x: Index, d: Definition)
    requires Coherent(x)
    ensures Coherent(Created(x, d)) <==> d.security.discard || d.id !in x.securities || !x.securities[d.id].discard
  {
    var x' := x.(securities := Emplaced(x.securities, d.id, d.security));
    MoreSecuritiesKeep(x, d);
    if !d.security.discard {
      if Usable(x', d.id) {
        FiledKeeps(x', d.group, d.segment, d.security.symbol, d.id);
      } else {
        assert InGroup(Created(x, d), d.group, d.id);
      }
    }
  }
}
