/** Little-endian and length-encoded values inside a payload (section 14.1.1 of the protocol). */
module Cursors {
  import opened Common
  import opened Framing

  function FromLe(s: seq<byte>): nat {
    if s == [] then 0 else (s[0] as int) + 256 * FromLe(s[1..])
  }

  function Power256(n: nat): (r: nat)
    ensures r > 0
  {
    if n == 0 then 1 else 256 * Power256(n - 1)
  }

  function ToLe(v: nat, n: nat): (r: seq<byte>)
    ensures |r| == n
  {
    if n == 0 then [] else [v % 256] + ToLe(v / 256, n - 1)
  }

  lemma {:induction false} LeRoundTrip(v: nat, n: nat)
    requires v < Power256(n)
    ensures FromLe(ToLe(v, n)) == v
    decreases n
  {
    if n > 0 {
      LeRoundTrip(v / 256, n - 1);
      assert ToLe(v, n)[1..] == ToLe(v / 256, n - 1);
    }
  }

  // ----- Reading at a position -------------------------------------------------------------------------------

  /** A value read, and the position after the read. */
  datatype Taken<T> = Taken(value: T, pos: nat)

  function TakeUint(s: seq<byte>, pos: nat, n: nat): (r: Taken<Option<nat>>)
    requires pos <= |s|
    ensures r.pos <= |s|
  {
    if |s| - pos < n then Taken(None, pos) else Taken(Some(FromLe(s[pos..pos + n])), pos + n)
  }

  function Defined(read: Taken<Option<nat>>): Taken<Option<Option<nat>>> {
    Taken(if read.value.Some? then Some(read.value) else None, read.pos)
  }

  /** `None` on a short buffer, `Some(None)` for the NULL marker; a failed read still passes its first byte. */
  function TakeLenenc(s: seq<byte>, pos: nat): (r: Taken<Option<Option<nat>>>)
    requires pos <= |s|
    ensures r.pos <= |s|
  {
    if pos == |s| then Taken(None, pos)
    else
      match s[pos]
      case 0xFB => Taken(Some(None), pos + 1)
      case 0xFC => Defined(TakeUint(s, pos + 1, 2))
      case 0xFD => Defined(TakeUint(s, pos + 1, 3))
      case 0xFE => Defined(TakeUint(s, pos + 1, 8))
      case other => Taken(Some(Some(other)), pos + 1)
  }

  function Flatten(value: Option<Option<nat>>): Option<nat> {
    if value.Some? then value.value else None
  }

  // ----- Writing -----------------------------------------------------------------------------------------------

  const TWO_TO_64: nat := 0x1_0000_0000_0000_0000

  /** The shortest length-encoded form of a value. */
  function Lenenc(v: nat): (r: seq<byte>)
    requires v < TWO_TO_64
    ensures 0 < |r| <= 9
  {
    if v < 0xFB then [v]
    else if v < 0x1_0000 then [0xFC] + ToLe(v, 2)
    else if v < 0x100_0000 then [0xFD] + ToLe(v, 3)
    else [0xFE] + ToLe(v, 8)
  }

  /** An encoded value is read back wherever it stands, and what follows it does not matter. */
  lemma {:induction false} LenencRoundTrip(before: seq<byte>, v: nat, rest: seq<byte>)
    requires v < TWO_TO_64
    ensures TakeLenenc(before + Lenenc(v) + rest, |before|) == Taken(Some(Some(v)), |before| + |Lenenc(v)|)
  {
    var s := before + Lenenc(v) + rest;
    Powers();
    if v >= 0xFB {
      var n := |Lenenc(v)| - 1;
      assert s[|before| + 1..|before| + 1 + n] == ToLe(v, n);
      LeRoundTrip(v, n);
    }
  }

  lemma {:induction false} LenencFirst(v: nat, rest: seq<byte>)
    requires v < TWO_TO_64
    ensures TakeLenenc(Lenenc(v) + rest, 0) == Taken(Some(Some(v)), |Lenenc(v)|)
  {
    LenencRoundTrip([], v, rest);
    assert [] + Lenenc(v) + rest == Lenenc(v) + rest;
  }

  lemma {:induction false} Powers()
    ensures Power256(2) == 0x1_0000 && Power256(3) == 0x100_0000 && Power256(8) == TWO_TO_64
  {
    assert Power256(2) == 256 * Power256(1) && Power256(3) == 256 * Power256(2);
    assert Power256(4) == 256 * Power256(3) && Power256(5) == 256 * Power256(4);
    assert Power256(6) == 256 * Power256(5) && Power256(7) == 256 * Power256(6);
    assert Power256(8) == 256 * Power256(7);
  }

  lemma {:induction false} UintRoundTrip(before: seq<byte>, v: nat, n: nat, rest: seq<byte>)
    requires v < Power256(n)
    ensures TakeUint(before + ToLe(v, n) + rest, |before|, n) == Taken(Some(v), |before| + n)
  {
    var s := before + ToLe(v, n) + rest;
    assert s[|before|..|before| + n] == ToLe(v, n);
    LeRoundTrip(v, n);
  }

  // ----- The cursor ----------------------------------------------------------------------------------------------

  lemma {:induction false} LeGrows(s: seq<byte>, b: byte)
    ensures FromLe(s + [b]) == FromLe(s) + (b as int) * Power256(|s|)
  {
    if s == [] {
      assert [] + [b] == [b] && [b][1..] == [];
    } else {
      LeGrows(s[1..], b);
      assert (s + [b])[1..] == s[1..] + [b];
    }
  }

  class Cursor {
    const buf: seq<byte>
    var pos: nat

    constructor (payload: seq<byte>)
      ensures buf == payload && pos == 0 && Valid()
    {
      buf, pos := payload, 0;
    }

    predicate Valid()
      reads this
    {
      pos <= |buf|
    }

    method U8() returns (v: Option<byte>)
      requires Valid()
      modifies this
      ensures Valid()
      ensures if old(pos) < |buf| then v == Some(buf[old(pos)]) && pos == old(pos) + 1
              else v == None && pos == old(pos)
    {
      if pos == |buf| {
        return None;
      }
      v := Some(buf[pos]);
      pos := pos + 1;
    }

    method UintLe(n: nat) returns (v: Option<nat>)
      requires Valid()
      modifies this
      ensures Valid() && Taken(v, pos) == TakeUint(buf, old(pos), n)
    {
      if |buf| - pos < n {
        return None;
      }
      var sum, weight := 0, 1;
      for i := 0 to n
        invariant pos == old(pos) && sum == FromLe(buf[pos..pos + i]) && weight == Power256(i)
      {
        LeGrows(buf[pos..pos + i], buf[pos + i]);
        assert buf[pos..pos + i + 1] == buf[pos..pos + i] + [buf[pos + i]];
        sum := sum + (buf[pos + i] as int) * weight;
        weight := weight * 256;
      }
      pos := pos + n;
      return Some(sum);
    }

    method LenencInt() returns (v: Option<Option<nat>>)
      requires Valid()
      modifies this
      ensures Valid() && Taken(v, pos) == TakeLenenc(buf, old(pos))
    {
      var first := U8();
      if first.None? {
        return None;
      }
      var n;
      match first.value {
        case 0xFB => return Some(None);
        case 0xFC => n := UintLe(2);
        case 0xFD => n := UintLe(3);
        case 0xFE => n := UintLe(8);
        case other => return Some(Some(other));
      }
      return if n.Some? then Some(n) else None;
    }
  }
}
