/** What the lookups of the security definitions find, after any file and any feed. */
module SecurityLookups {
  import opened Optional
  import opened SecurityIndex

  /** The records of the file that are not discarded. */
  function Kept(file: seq<Definition>): seq<Definition> {
    if file == [] then []
    else (if file[0].security.discard then [] else [file[0]]) + Kept(file[1..])
  }

  function Ids(ds: seq<Definition>): set<int> { set i | 0 <= i < |ds| :: ds[i].id }

  /** The definitions of the feed whose id has not been seen before and that are not
      discarded; a discarded one counts as seen. */
  function Fresh(seen: set<int>, feed: seq<Definition>): seq<Definition>
    decreases |feed|
  {
    if feed == [] then []
    else
      (if feed[0].id in seen || feed[0].security.discard then [] else [feed[0]]) + Fresh(seen + {feed[0].id}, feed[1..])
  }

  /** All that is filed under a group and a symbol, in order. */
  function Filings(file: seq<Definition>, feed: seq<Definition>): seq<Definition> {
    Kept(file) + Fresh(Ids(Kept(file)), feed)
  }

  /** The id of the first definition with that segment and symbol. */
  function FirstWith(ds: seq<Definition>, segment: nat, symbol: string): Option<int> {
    if ds == [] then None
    else if ds[0].segment == segment && ds[0].security.symbol == symbol then Some(ds[0].id)
    else FirstWith(ds[1..], segment, symbol)
  }

  /** The ids of all definitions of a group. */
  function IdsOfGroup(ds: seq<Definition>, group: string): set<int> {
    set i | 0 <= i < |ds| && ds[i].group == group :: ds[i].id
  }

  /** The security of the first definition of an id. */
  function FirstOf(ds: seq<Definition>, id: int): Option<Security> {
    if ds == [] then None else if ds[0].id == id then Some(ds[0].security) else FirstOf(ds[1..], id)
  }

  function OrElse<T>(a: Option<T>, b: Option<T>): Option<T> { if a.Some? then a else b }

  function SecurityOf(x: Index, id: int): Option<Security> {
    if id in x.securities then Some(x.securities[id]) else None
  }

  // ---------- one insertion ----------

  lemma FiledFinds(x: Index, d: Definition, segment: nat, symbol: string, group: string)
    ensures var x' := Filed(x, d.group, d.segment, d.security.symbol, d.id);
      && FindSecurityId(x', segment, symbol)
         == OrElse(FindSecurityId(x, segment, symbol), FirstWith([d], segment, symbol))
      && GroupIds(x', group) == GroupIds(x, group) + IdsOfGroup([d], group)
  {
  }

  lemma {:induction false} FirstWithAppend(a: seq<Definition>, b: seq<Definition>, segment: nat, symbol: string)
    ensures FirstWith(a + b, segment, symbol) == OrElse(FirstWith(a, segment, symbol), FirstWith(b, segment, symbol))
  {
    if a == [] {
      assert a + b == b;
    } else {
      assert (a + b)[1..] == a[1..] + b;
      FirstWithAppend(a[1..], b, segment, symbol);
    }
  }

  lemma IdsOfGroupAppend(a: seq<Definition>, b: seq<Definition>, group: string)
    ensures IdsOfGroup(a + b, group) == IdsOfGroup(a, group) + IdsOfGroup(b, group)
  {
    var all := a + b;
    forall id
      ensures id in IdsOfGroup(all, group) <==> id in IdsOfGroup(a, group) || id in IdsOfGroup(b, group)
    {
      if id in IdsOfGroup(a, group) {
        var i :| 0 <= i < |a| && a[i].group == group && a[i].id == id;
        assert all[i] == a[i];
      }
      if id in IdsOfGroup(b, group) {
        var i :| 0 <= i < |b| && b[i].group == group && b[i].id == id;
        assert all[|a| + i] == b[i];
      }
    }
  }

  /** The index finds what is filed behind what `x` finds. */
  ghost predicate Finds(x: Index, x': Index, ds: seq<Definition>, segment: nat, symbol: string, group: string) {
    && FindSecurityId(x', segment, symbol) == OrElse(FindSecurityId(x, segment, symbol), FirstWith(ds, segment, symbol))
    && GroupIds(x', group) == GroupIds(x, group) + IdsOfGroup(ds, group)
  }

  lemma FindsMore(
    x: Index, m: Index, x': Index, a: seq<Definition>, b: seq<Definition>, segment: nat, symbol: string, group: string)
    requires Finds(x, m, a, segment, symbol, group) && Finds(m, x', b, segment, symbol, group)
    ensures Finds(x, x', a + b, segment, symbol, group)
  {
    FirstWithAppend(a, b, segment, symbol);
    IdsOfGroupAppend(a, b, group);
  }

  lemma {:induction false} LoadAllFinds(x: Index, file: seq<Definition>, segment: nat, symbol: string, group: string)
    ensures Finds(x, LoadAll(x, file), Kept(file), segment, symbol, group)
    decreases |file|
  {
    if file != [] {
      var d, m := file[0], Loaded(x, file[0]);
      FiledFinds(x.(securities := Emplaced(x.securities, d.id, d.security)), d, segment, symbol, group);
      LoadAllFinds(m, file[1..], segment, symbol, group);
      FindsMore(x, m, LoadAll(x, file), if d.security.discard then [] else [d], Kept(file[1..]),
                segment, symbol, group);
    }
  }

  lemma {:induction false} DefineAllFinds(x: Index, feed: seq<Definition>, segment: nat, symbol: string, group: string)
    ensures Finds(x, DefineAll(x, feed), Fresh(x.securities.Keys, feed), segment, symbol, group)
    decreases |feed|
  {
    if feed != [] {
      var d, m := feed[0], Defined(x, feed[0]);
      FiledFinds(x, d, segment, symbol, group);
      DefineAllFinds(m, feed[1..], segment, symbol, group);
      assert m.securities.Keys == x.securities.Keys + {d.id};
      FindsMore(x, m, DefineAll(x, feed), if d.id in x.securities || d.security.discard then [] else [d],
                Fresh(m.securities.Keys, feed[1..]), segment, symbol, group);
    }
  }

  // ---------- the securities themselves ----------

  lemma {:induction false} FirstOfAppend(a: seq<Definition>, b: seq<Definition>, id: int)
    ensures FirstOf(a + b, id) == OrElse(FirstOf(a, id), FirstOf(b, id))
  {
    if a == [] {
      assert a + b == b;
    } else {
      assert (a + b)[1..] == a[1..] + b;
      FirstOfAppend(a[1..], b, id);
    }
  }

  lemma {:induction false} LoadAllKnows(x: Index, file: seq<Definition>, id: int)
    ensures SecurityOf(LoadAll(x, file), id) == OrElse(SecurityOf(x, id), FirstOf(Kept(file), id))
    decreases |file|
  {
    if file != [] {
      LoadAllKnows(Loaded(x, file[0]), file[1..], id);
      FirstOfAppend(if file[0].security.discard then [] else [file[0]], Kept(file[1..]), id);
    }
  }

  lemma {:induction false} DefineAllKnows(x: Index, feed: seq<Definition>, id: int)
    ensures SecurityOf(DefineAll(x, feed), id) == OrElse(SecurityOf(x, id), FirstOf(feed, id))
    decreases |feed|
  {
    if feed != [] {
      DefineAllKnows(Defined(x, feed[0]), feed[1..], id);
    }
  }

  lemma {:induction false} KnownIds(x: Index, file: seq<Definition>)
    ensures LoadAll(x, file).securities.Keys == x.securities.Keys + Ids(Kept(file))
    decreases |file|
  {
    forall id
      ensures id in LoadAll(x, file).securities.Keys <==> id in x.securities.Keys || id in Ids(Kept(file))
    {
      LoadAllKnows(x, file, id);
      FirstOfIff(Kept(file), id);
    }
  }

  lemma {:induction false} FirstOfIff(ds: seq<Definition>, id: int)
    ensures FirstOf(ds, id).Some? <==> id in Ids(ds)
  {
    if ds != [] {
      FirstOfIff(ds[1..], id);
      assert forall i :: 1 <= i < |ds| ==> ds[i] == ds[1..][i - 1];
      assert forall i :: 0 <= i < |ds| - 1 ==> ds[1..][i] == ds[i + 1];
      if id in Ids(ds[1..]) {
        var i :| 0 <= i < |ds[1..]| && ds[1..][i].id == id;
        assert ds[i + 1].id == id;
      }
    }
  }

  // ---------- the theorem ----------

  /** After any file and any feed: a segment and a symbol lead to the id that was filed under
      them first, a group to all ids filed under it, and an id to its first security; and to
      nothing where there is none. What is filed are the records of the file that are not
      discarded, and then each definition of the feed that is not and has a new id. */
  lemma LookupsFindFirst(
    file: seq<Definition>, feed: seq<Definition>, segment: nat, symbol: string, group: string, id: int)
    ensures var x, filed := DefineAll(LoadAll(EMPTY, file), feed), Filings(file, feed);
      && FindSecurityId(x, segment, symbol) == FirstWith(filed, segment, symbol)
      && GroupIds(x, group) == IdsOfGroup(filed, group)
      && SecurityOf(x, id) == FirstOf(Kept(file) + feed, id)
  {
    var m := LoadAll(EMPTY, file);
    LoadAllFinds(EMPTY, file, segment, symbol, group);
    DefineAllFinds(m, feed, segment, symbol, group);
    KnownIds(EMPTY, file);
    assert m.securities.Keys == Ids(Kept(file));
    FindsMore(EMPTY, m, DefineAll(m, feed), Kept(file), Fresh(m.securities.Keys, feed), segment, symbol, group);
    LoadAllKnows(EMPTY, file, id);
    DefineAllKnows(m, feed, id);
    FirstOfAppend(Kept(file), feed, id);
  }

  /** So every record of the file that is not discarded is found under its symbol. */
  lemma EveryRecordIsFound(file: seq<Definition>, feed: seq<Definition>, i: nat)
    requires i < |file| && !file[i].security.discard
    ensures var x, d := DefineAll(LoadAll(EMPTY, file), feed), file[i];
      && FindSecurityId(x, d.segment, d.security.symbol).Some?
      && d.id in GroupIds(x, d.group) && SecurityOf(x, d.id).Some?
  {
    var d := file[i];
    LookupsFindFirst(file, feed, d.segment, d.security.symbol, d.group, d.id);
    var j := KeptAt(file, i);
    FirstWithFinds(Filings(file, feed), j);
    FirstOfIff(Kept(file), d.id);
    FirstOfAppend(Kept(file), feed, d.id);
  }

  lemma {:induction false} KeptAt(file: seq<Definition>, i: nat) returns (j: nat)
    requires i < |file| && !file[i].security.discard
    ensures j < |Kept(file)| && Kept(file)[j] == file[i]
    decreases |file|
  {
    if i == 0 {
      j := 0;
    } else {
      j := KeptAt(file[1..], i - 1);
      if !file[0].security.discard {
        j := j + 1;
      }
    }
  }

  lemma {:induction false} FirstWithFinds(ds: seq<Definition>, j: nat)
    requires j < |ds|
    ensures FirstWith(ds, ds[j].segment, ds[j].security.symbol).Some?
  {
    if j > 0 {
      FirstWithFinds(ds[1..], j - 1);
    }
  }

  /** An order is routed to a security if and only if that is the first one filed under its
      segment and symbol, and it trades on the exchange of the order. */
  lemma OrderIsRoutedIff(
    file: seq<Definition>, feed: seq<Definition>, segment: nat, symbol: string, exchange: string, id: int)
    ensures RouteOrder(DefineAll(LoadAll(EMPTY, file), feed), segment, symbol, exchange) == Routed(id) <==>
      var security := FirstOf(Kept(file) + feed, id);
      FirstWith(Filings(file, feed), segment, symbol) == Some(id)
      && security.Some? && security.value.exchange == exchange
  {
    NoOrderHitsMissingSecurity(file, feed, segment, symbol, exchange);
    LookupsFindFirst(file, feed, segment, symbol, "", id);
  }
}
