/** Sequence numbers of the order entry session: which number each outbound message
    carries, over whole connections. */
module OutboundNumbering {

  const MAX_SEQ_NUM: nat := 1000000000

  /** Outbound messages. The sequenced kinds use up a number; Establish and Sequence
      announce the next one; the others carry none. */
  datatype Kind =
    | Negotiate | Establish | Sequence
    | PartyDetails | MassStatus | NewOrder | Replace | Cancel | MassAction

  predicate Sequenced(k: Kind) {
    k.PartyDetails? || k.MassStatus? || k.NewOrder? || k.Replace? || k.Cancel? || k.MassAction?
  }

  predicate Announces(k: Kind) { k.Establish? || k.Sequence? }

  /** One call of `send`, and whether the transport took the message. */
  datatype Attempt = Attempt(kind: Kind, number: nat, taken: bool)

  /** What makes the session send: connection events, the heartbeat, and order requests.
      A rejected order request throws before anything is sent. */
  datatype Command =
    | OnConnected | OnNegotiated | OnHeartbeat | OnDownload
    | OnOrder(kind: Kind, rejected: bool)
    | OnCancelAll

  /** No party details list is registered, so a definition precedes every request. */
  function Sends(c: Command): seq<Kind> {
    match c
    case OnConnected => [Negotiate]
    case OnNegotiated => [Establish]
    case OnHeartbeat => [Sequence]
    case OnDownload => [PartyDetails, MassStatus]
    case OnOrder(kind, rejected) => if rejected then [] else [PartyDetails, kind]
    case OnCancelAll => [PartyDetails, MassAction]
  }

  predicate IsCommand(c: Command) { c.OnOrder? ==> c.kind in {NewOrder, Replace, Cancel} }

  /** The requests that name a party: all sequenced messages but the definition itself. */
  predicate NamesParty(k: Kind) { k in {MassStatus, NewOrder, Replace, Cancel, MassAction} }

  /** Every such request directly follows a definition of the party. */
  ghost predicate Introduced(log: seq<Attempt>) {
    forall i :: 0 <= i < |log| && NamesParty(log[i].kind) ==> 0 < i && log[i - 1].kind == PartyDetails
  }

  /** The number of sequenced attempts among the first `k`. */
  function Used(log: seq<Attempt>, k: nat): nat
    requires k <= |log|
  {
    if k == 0 then 0 else Used(log, k - 1) + if Sequenced(log[k - 1].kind) then 1 else 0
  }

  /** Each of the first `k` attempts carries the number that is due at its place. */
  predicate AllDue(log: seq<Attempt>, k: nat)
    requires k <= |log|
  {
    k == 0 || (AllDue(log, k - 1) && IsDue(log[k - 1], Used(log, k - 1)))
  }

  /** After `used` sequenced messages, the attempt carries the next number if any. */
  predicate IsDue(x: Attempt, used: nat) {
    Sequenced(x.kind) || Announces(x.kind) ==> x.number == (used + 1) % MAX_SEQ_NUM
  }

  // ---------- the code ----------

  class Session {
    var msgSeqNum: nat
    var log: seq<Attempt>

    /** The counter and the log of the current connection. */
    ghost predicate Valid()
      reads this
    {
      msgSeqNum == Used(log, |log|) % MAX_SEQ_NUM && AllDue(log, |log|)
    }

    constructor ()
      ensures Valid() && log == []
    {
      msgSeqNum, log := 0, [];
    }

    method PeekNextSeqNum() returns (n: nat)
      ensures n == (msgSeqNum + 1) % MAX_SEQ_NUM
    {
      n := (msgSeqNum + 1) % MAX_SEQ_NUM;
    }

    method FetchNextSeqNum() returns (n: nat)
      modifies `msgSeqNum
      ensures n == (old(msgSeqNum) + 1) % MAX_SEQ_NUM && msgSeqNum == n
    {
      n := PeekNextSeqNum();
      msgSeqNum := n;
    }

    method Disconnected()
      modifies this
      ensures Valid() && log == []
    {
      msgSeqNum := 0;
      log := [];
    }

    /** Builds one message and hands it to the transport. */
    method Send(kind: Kind, taken: bool)
      requires Valid()
      modifies this
      ensures Valid()
      ensures exists n :: log == old(log) + [Attempt(kind, n, taken)]
    {
      var n := NumberFor(kind);
      DueGrows(log, Attempt(kind, n, taken));
      log := log + [Attempt(kind, n, taken)];
    }

    method NumberFor(kind: Kind) returns (n: nat)
      requires msgSeqNum == Used(log, |log|) % MAX_SEQ_NUM
      modifies `msgSeqNum
      ensures forall taken :: IsDue(Attempt(kind, n, taken), Used(log, |log|))
      ensures msgSeqNum == (Used(log, |log|) + if Sequenced(kind) then 1 else 0) % MAX_SEQ_NUM
    {
      n := 0;
      SuccessorOfRemainder(Used(log, |log|));
      if Sequenced(kind) {
        n := FetchNextSeqNum();
      } else if Announces(kind) {
        n := PeekNextSeqNum();
      }
    }

    /** Runs one command; `taken` says for each of its messages whether it got through. */
    method Execute(c: Command, taken: seq<bool>)
      requires Valid() && IsCommand(c) && |taken| == |Sends(c)| && Introduced(log)
      modifies this
      ensures Valid() && old(log) <= log && |log| == |old(log)| + |taken|
      ensures Introduced(log)
      ensures c.OnOrder? && c.rejected ==> log == old(log)
      ensures c.OnOrder? && !c.rejected ==>
        |log| == |old(log)| + 2 && log[|old(log)|].kind == PartyDetails && log[|old(log)| + 1].kind == c.kind
      ensures forall i :: 0 <= i < |taken| ==>
        log[|old(log)| + i].kind == Sends(c)[i] && log[|old(log)| + i].taken == taken[i]
    {
      var kinds := Sends(c);
      var i := 0;
      while i < |kinds|
        invariant 0 <= i <= |kinds| && Valid()
        invariant old(log) <= log && |log| == |old(log)| + i
        invariant forall j :: 0 <= j < i ==>
          log[|old(log)| + j].kind == kinds[j] && log[|old(log)| + j].taken == taken[j]
      {
        Send(kinds[i], taken[i]);
        i := i + 1;
      }
      IntroducedGrows(old(log), log, c);
      assert c.OnOrder? && !c.rejected ==> kinds[0] == PartyDetails && kinds[1] == c.kind;
    }
  }

  lemma IntroducedGrows(log: seq<Attempt>, log': seq<Attempt>, c: Command)
    requires Introduced(log) && log <= log' && IsCommand(c) && |log'| == |log| + |Sends(c)|
    requires forall j :: 0 <= j < |Sends(c)| ==> log'[|log| + j].kind == Sends(c)[j]
    ensures Introduced(log')
  {
    forall i | 0 <= i < |log'| && NamesParty(log'[i].kind)
      ensures 0 < i && log'[i - 1].kind == PartyDetails
    {
      if i < |log| {
        assert log'[i] == log[i];
      } else {
        assert log'[i].kind == Sends(c)[i - |log|];
        assert Sends(c)[0] == PartyDetails && i == |log| + 1;
      }
    }
  }

  lemma {:induction false} PrefixStable(a: seq<Attempt>, b: seq<Attempt>, k: nat)
    requires k <= |a|
    ensures Used(a + b, k) == Used(a, k) && AllDue(a + b, k) == AllDue(a, k)
  {
    if k > 0 {
      PrefixStable(a, b, k - 1);
      assert (a + b)[k - 1] == a[k - 1];
    }
  }

  lemma {:induction false} DueAt(log: seq<Attempt>, k: nat, i: nat)
    requires i < k <= |log| && AllDue(log, k)
    ensures IsDue(log[i], Used(log, i))
  {
    if i < k - 1 {
      DueAt(log, k - 1, i);
    }
  }

  lemma SuccessorOfRemainder(u: nat)
    ensures (u % MAX_SEQ_NUM + 1) % MAX_SEQ_NUM == (u + 1) % MAX_SEQ_NUM
  {
  }

  lemma DueGrows(log: seq<Attempt>, x: Attempt)
    requires AllDue(log, |log|) && IsDue(x, Used(log, |log|))
    ensures AllDue(log + [x], |log| + 1)
    ensures Used(log + [x], |log| + 1) == Used(log, |log|) + if Sequenced(x.kind) then 1 else 0
  {
    PrefixStable(log, [x], |log|);
    assert (log + [x])[|log|] == x;
  }

  // ---------- what the exchange sees ----------

  /** Sequenced messages that reached the wire, and those that did not, among the first `k`. */
  function OnWire(log: seq<Attempt>, k: nat): nat
    requires k <= |log|
  {
    if k == 0 then 0 else OnWire(log, k - 1) + if Sequenced(log[k - 1].kind) && log[k - 1].taken then 1 else 0
  }

  function Lost(log: seq<Attempt>, k: nat): nat
    requires k <= |log|
  {
    if k == 0 then 0 else Lost(log, k - 1) + if Sequenced(log[k - 1].kind) && !log[k - 1].taken then 1 else 0
  }

  lemma {:induction false} UsedIsWireAndLost(log: seq<Attempt>, k: nat)
    requires k <= |log|
    ensures Used(log, k) == OnWire(log, k) + Lost(log, k)
  {
    if k > 0 {
      UsedIsWireAndLost(log, k - 1);
    }
  }

  /** The k-th sequenced message on the wire carries k, shifted by the sends that failed
      before it; with no failed send it carries exactly k, modulo the maximum. */
  lemma WireNumber(log: seq<Attempt>, i: nat)
    requires AllDue(log, |log|) && i < |log| && Sequenced(log[i].kind) && log[i].taken
    ensures log[i].number == (OnWire(log, i + 1) + Lost(log, i)) % MAX_SEQ_NUM
    ensures Lost(log, i) == 0 ==> log[i].number == OnWire(log, i + 1) % MAX_SEQ_NUM
  {
    UsedIsWireAndLost(log, i);
    DueAt(log, |log|, i);
  }

  /** The number is the place on the wire exactly if no send was lost, or full cycles of
      them. */
  lemma PlaceOnWireIff(log: seq<Attempt>, i: nat)
    requires AllDue(log, |log|) && i < |log| && Sequenced(log[i].kind) && log[i].taken
    ensures log[i].number == OnWire(log, i + 1) % MAX_SEQ_NUM <==> Lost(log, i) % MAX_SEQ_NUM == 0
  {
    WireNumber(log, i);
    ShiftShowsIff(OnWire(log, i + 1), Lost(log, i));
  }

  lemma ShiftShowsIff(k: nat, f: nat)
    ensures (k + f) % MAX_SEQ_NUM == k % MAX_SEQ_NUM <==> f % MAX_SEQ_NUM == 0
  {
    var m := MAX_SEQ_NUM;
    var r, g := k % m, f % m;
    assert k + f == (k / m + f / m) * m + (r + g);
    RemainderOf(k / m + f / m, r + g);
    if r + g >= m {
      RemainderOf(1, r + g - m);
    }
  }

  lemma RemainderOf(q: nat, r: nat)
    ensures (q * MAX_SEQ_NUM + r) % MAX_SEQ_NUM == r % MAX_SEQ_NUM
  {
  }

  /** An Establish or a Sequence announces exactly the number of the next sequenced
      message of the connection. */
  lemma AnnouncedIsNext(log: seq<Attempt>, i: nat, j: nat)
    requires AllDue(log, |log|) && i < j < |log|
    requires Announces(log[i].kind) && Sequenced(log[j].kind)
    requires forall k :: i <= k < j ==> !Sequenced(log[k].kind)
    ensures log[i].number == log[j].number
  {
    NoneUsed(log, i, j);
    DueAt(log, |log|, i);
    DueAt(log, |log|, j);
  }

  lemma {:induction false} NoneUsed(log: seq<Attempt>, i: nat, j: nat)
    requires i <= j <= |log| && forall k :: i <= k < j ==> !Sequenced(log[k].kind)
    ensures Used(log, i) == Used(log, j)
    decreases j
  {
    if i < j {
      NoneUsed(log, i, j - 1);
    }
  }

  // ---------- which messages count ----------

  /** The attempts among the first `k` that are requests or definitions. */
  function Requests(log: seq<Attempt>, k: nat): nat
    requires k <= |log|
  {
    if k == 0 then 0 else Requests(log, k - 1) + if log[k - 1].kind in {Negotiate, Establish, Sequence} then 0 else 1
  }

  lemma {:induction false} UsedAreRequests(log: seq<Attempt>, k: nat)
    requires k <= |log|
    ensures Used(log, k) == Requests(log, k)
  {
    if k > 0 {
      UsedAreRequests(log, k - 1);
    }
  }

  /** Whatever the connection has sent, and whether or not it got through: every message but a
      Negotiate carries one more than the number of requests and definitions before it, and
      999999999 is followed by zero. */
  lemma NumberIsRequestsBefore(log: seq<Attempt>, i: nat)
    requires AllDue(log, |log|) && i < |log| && log[i].kind != Negotiate
    ensures log[i].number == (Requests(log, i) + 1) % 1000000000
  {
    DueAt(log, |log|, i);
    UsedAreRequests(log, i);
  }
}
