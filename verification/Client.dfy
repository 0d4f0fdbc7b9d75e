/** The client side: allocating ids, building request bytes, reading typed results out of replies. */
module Client {
  import opened Wrappers
  import opened Bytes
  import opened Json
  import opened Protocol

  datatype ClientError = Unserializable | Unparsable | IdMismatch | Rpc(error: RpcError) | Malformed | WrongType

  /** `encode_call`; `params` is `None` when the caller's type does not serialize. */
  function EncodeCall(be: Backend, name: string, params: Option<Json>, id: Id): Result<(seq<byte>, Id), ClientError> {
    match params
    case None => Err(Unserializable)
    case Some(p) => Ok((be.render(EncodeRequest(Request(name, Some(p), Some(id)))), id))
  }

  function EncodeNotification(be: Backend, name: string, params: Option<Json>): Result<seq<byte>, ClientError> {
    match params
    case None => Err(Unserializable)
    case Some(p) => Ok(be.render(EncodeRequest(Request(name, Some(p), None))))
  }

  /** `decode_result`: `read` is the caller's deserializer. */
  function DecodeResult<T>(be: Backend, read: Json -> Option<T>, bytes: seq<byte>, expected: Id): Result<T, ClientError> {
    match be.parse(bytes)
    case None => Err(Unparsable)
    case Some(v) =>
      match DecodeResponse(v)
      case None => Err(Unparsable)
      case Some(resp) =>
        if resp.id != expected then Err(IdMismatch)
        else
          match (resp.result, resp.error)
          case (Some(raw), None) => if read(raw).Some? then Ok(read(raw).value) else Err(WrongType)
          case (None, Some(e)) => Err(Rpc(e))
          case _ => Err(Malformed)
  }

  /** `parse_id`: the id of a frame, if there is a usable one. */
  function ParseId(be: Backend, frame: seq<byte>): Option<Id> {
    match be.parse(frame)
    case None => None
    case Some(v) => DecodeIdOnly(v)
  }

  // ----- Identifiers -----

  const U64_MOD: nat := 0x1_0000_0000_0000_0000

  /** The `as i64` cast of a `u64`. */
  function AsI64(n: nat): i64
    requires n < U64_MOD
  {
    if n < U64_MOD / 2 then n else n - U64_MOD
  }

  /** The id the generator hands out after `k` others. */
  function NthId(k: nat): Id { NumberId(AsI64((1 + k) % U64_MOD)) }

  /** Counting on after a wrap-around is counting modulo 2^64. */
  lemma CountOn(n: nat)
    ensures (n + 1) % U64_MOD == if n % U64_MOD == U64_MOD - 1 then 0 else n % U64_MOD + 1
    ensures (n % U64_MOD + 1) % U64_MOD == (n + 1) % U64_MOD
  {
    var q, r := n / U64_MOD, n % U64_MOD;
    assert n == q * U64_MOD + r;
    if r == U64_MOD - 1 {
      Remainder(n + 1, q + 1, 0);
    } else {
      Remainder(n + 1, q, r + 1);
    }
  }

  lemma Remainder(n: nat, q: nat, r: nat)
    requires n == q * U64_MOD + r && r < U64_MOD
    ensures n % U64_MOD == r && n / U64_MOD == q
  {
  }

  /** The atomic counter behind request ids. */
  class IdGen {
    var next: nat
    ghost var handedOut: nat

    ghost predicate Valid()
      reads this
    {
      next == (1 + handedOut) % U64_MOD
    }

    constructor ()
      ensures Valid() && handedOut == 0
    {
      next, handedOut := 1, 0;
    }

    method NextId() returns (id: Id)
      requires Valid()
      modifies this
      ensures Valid() && handedOut == old(handedOut) + 1
      ensures id == NthId(old(handedOut))
    {
      CountOn(1 + handedOut);
      var n := next;
      next := (next + 1) % U64_MOD;
      handedOut := handedOut + 1;
      id := NumberId(AsI64(n));
    }
  }

  lemma CastInjective(a: nat, b: nat)
    requires a < U64_MOD && b < U64_MOD
    ensures AsI64(a) == AsI64(b) <==> a == b
  {
  }

  /** Numbers less than 2^64 apart leave different remainders. */
  lemma CloseNumbersDiffer(j: nat, k: nat)
    requires j < k < j + U64_MOD
    ensures j % U64_MOD != k % U64_MOD
  {
    var q, r, p := j / U64_MOD, j % U64_MOD, k / U64_MOD;
    assert j == q * U64_MOD + r && k == p * U64_MOD + k % U64_MOD;
    assert k - j == (p - q) * U64_MOD + (k % U64_MOD - r);
  }

  /** Two ids are the same exactly when a multiple of 2^64 others lie between them: any 2^64 ids in a row
      are pairwise distinct, and the cast never produces a string. */
  lemma IdsDistinct(j: nat, k: nat)
    ensures NthId(j) == NthId(k) <==> j % U64_MOD == k % U64_MOD
    ensures j < k < j + U64_MOD ==> NthId(j) != NthId(k)
  {
    CountOn(j);
    CountOn(k);
    CastInjective((1 + j) % U64_MOD, (1 + k) % U64_MOD);
    if j < k < j + U64_MOD { CloseNumbersDiffer(j, k); }
  }
}
