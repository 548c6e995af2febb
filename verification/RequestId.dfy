/** Request ids: type, user and order packed into 64 bits, next to a plain counter. */
module RequestId {

  const ORDER_BITS: bv64 := 0x1_0000_0000_0000
  const TYPE_BITS: bv64 := 0x100_0000_0000_0000

  /** Create, modify and cancel are the types one, two and three. */
  predicate OrderType(kind: bv8) { 1 <= kind <= 3 }

  const BEHIND_TYPES: bv64 := 0x400_0000_0000_0000

  /** What goes into an id. */
  datatype Request = Request(kind: bv8, user: bv8, order: bv64)

  function Encode(r: Request): bv64 {
    ((r.kind as bv64) << 56) | ((r.user as bv64) << 48) | r.order
  }

  function Decode(id: bv64): Request {
    Request(((id >> 56) & 0xFF) as bv8, ((id >> 48) & 0xFF) as bv8, id & 0xFFFF_FFFF_FFFF)
  }

  /** Decoding undoes encoding exactly for order numbers of at most 48 bits: the order
      number is not masked. */
  lemma DecodeUndoesEncodeIff(r: Request)
    ensures Decode(Encode(r)) == r <==> r.order < ORDER_BITS
  {
  }

  /** Distinct requests never share an id. */
  lemma EncodeIsInjective(a: Request, b: Request)
    requires a.order < ORDER_BITS && b.order < ORDER_BITS && Encode(a) == Encode(b)
    ensures a == b
  {
    DecodeUndoesEncodeIff(a);
    DecodeUndoesEncodeIff(b);
  }

  /** An id taken from the counter collides with no create, modify or cancel request
      exactly if the counter has not reached the bits of the type, or has passed the last
      of these types: each value in between is the id of such a request. */
  lemma CounterIsApartIff(id: bv64)
    ensures (forall r: Request :: OrderType(r.kind) && r.order < ORDER_BITS ==> Encode(r) != id)
      <==> id < TYPE_BITS || id >= BEHIND_TYPES
  {
    forall r: Request | OrderType(r.kind) && r.order < ORDER_BITS
      ensures TYPE_BITS <= Encode(r) < BEHIND_TYPES
    {
      HasTypeBits(r);
    }
    if TYPE_BITS <= id < BEHIND_TYPES {
      var r := Decode(id);
      EncodeUndoesDecode(id);
      assert Encode(r) == id;
    }
  }

  lemma HasTypeBits(r: Request)
    requires OrderType(r.kind) && r.order < ORDER_BITS
    ensures TYPE_BITS <= Encode(r) < BEHIND_TYPES
  {
  }

  lemma EncodeUndoesDecode(id: bv64)
    ensures Encode(Decode(id)) == id && Decode(id).order < ORDER_BITS
    ensures TYPE_BITS <= id < BEHIND_TYPES ==> OrderType(Decode(id).kind)
  {
  }

  /** The type stands above the user, and the user above the order number. */
  lemma EncodedValue(r: Request)
    requires r.order < ORDER_BITS
    ensures Encode(r) == (r.kind as bv64) * TYPE_BITS + (r.user as bv64) * ORDER_BITS + r.order
  {
  }
}
