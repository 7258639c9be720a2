// The base64url encoder of the development token: a streaming loop over a machine word that wraps
// around, against the definition by groups of three bytes (sections 3.2, 4 and 5 of RFC 4648).
module Base64Url {
  import opened Basics

  type byte = b: int | 0 <= b < 256

  type sextet = n: int | 0 <= n < 64

  // The standard alphabet of section 4 of RFC 4648.
  function StdChar(n: sextet): char {
    if n < 26 then ('A' as int + n) as char
    else if n < 52 then ('a' as int + n - 26) as char
    else if n < 62 then ('0' as int + n - 52) as char
    else if n == 62 then '+' else '/'
  }

  // The replacement of '+' and '/' that makes text URL safe.
  function UrlSafe(c: char): char {
    if c == '+' then '-' else if c == '/' then '_' else c
  }

  function StdText(s: seq<sextet>): (t: string)
    ensures |t| == |s|
  {
    seq(|s|, i requires 0 <= i < |s| => StdChar(s[i]))
  }

  function UrlText(s: seq<sextet>): (t: string)
    ensures |t| == |s|
  {
    seq(|s|, i requires 0 <= i < |s| => UrlSafe(StdChar(s[i])))
  }

  // Groups of 24 bits cut into four sextets; a last group of one or two bytes is filled with zero
  // bits up to the next sextet and not padded further.
  function Sextets(data: seq<byte>): seq<sextet> {
    if data == [] then []
    else if |data| == 1 then [data[0] / 4, data[0] % 4 * 16]
    else if |data| == 2 then [data[0] / 4, data[0] % 4 * 16 + data[1] / 16, data[1] % 16 * 4]
    else Group(data[0], data[1], data[2]) + Sextets(data[3..])
  }

  function Group(a: byte, b: byte, c: byte): (g: seq<sextet>)
    ensures |g| == 4
  {
    [a / 4, a % 4 * 16 + b / 16, b % 16 * 4 + c / 64, c % 64]
  }

  function EncodeUrl(data: seq<byte>): string {
    UrlText(Sextets(data))
  }

  // ---- the streaming loop ----

  function Pow2(n: nat): (p: nat)
    ensures p > 0
  {
    if n == 0 then 1 else 2 * Pow2(n - 1)
  }

  // The sextets the inner loop takes from the accumulator when valb bits are available above the
  // next sextet.
  function Drained(val: nat, valb: int): seq<sextet>
    decreases valb + 6
  {
    if valb < 0 then [] else [val / Pow2(valb) % 64] + Drained(val, valb - 6)
  }

  // What the loop has written and still holds after some whole groups and a part of the next one.
  predicate Accumulated(whole: seq<byte>, part: seq<byte>, out: seq<sextet>, val: nat, valb: int) {
    && |whole| % 3 == 0 && |part| < 3
    && (|part| == 0 ==> valb == -6 && out == Sextets(whole))
    && (|part| == 1 ==> valb == -4 && val % 4 == part[0] % 4 && out == Sextets(whole) + [part[0] / 4])
    && (|part| == 2 ==> valb == -2 && val % 16 == part[1] % 16
                        && out == Sextets(whole) + [part[0] / 4, part[0] % 4 * 16 + part[1] / 16])
  }

  // The width of size_t: 32 or 64 bits.
  predicate WordSize(modulus: nat) {
    modulus == 0x1_0000_0000 || modulus == 0x1_0000_0000_0000_0000
  }

  method B64Url(data: seq<byte>, modulus: nat) returns (out: string)
    requires WordSize(modulus)
    ensures out == EncodeUrl(data)
  {
    hide Sextets, Drained, Accumulated, StdChar;
    out := "";
    ghost var taken: seq<sextet> := [];
    ghost var whole: seq<byte>, part: seq<byte> := [], [];
    var val: nat := 0;
    var valb := -6;
    NothingAccumulated();
    for i := 0 to |data|
      invariant out == StdText(taken)
      invariant Accumulated(whole, part, taken, val, valb) && data[..i] == whole + part
    {
      AccumulatedRange(whole, part, taken, val, valb);
      ghost var val0, valb0, taken0 := val, valb, taken;
      val := (val * 256 + data[i]) % modulus;
      valb := valb + 8;
      while valb >= 0
        invariant -6 <= valb <= 6 && (valb - valb0 - 8) % 6 == 0
        invariant out == StdText(taken)
        invariant taken + Drained(val, valb) == taken0 + Drained(val, valb0 + 8)
        decreases valb + 6
      {
        DrainedStep(val, valb);
        ghost var next: sextet := val / Pow2(valb) % 64;
        out := out + [StdChar(val / Pow2(valb) % 64)];
        assert taken + ([next] + Drained(val, valb - 6)) == (taken + [next]) + Drained(val, valb - 6);
        taken := taken + [next];
        valb := valb - 6;
      }
      DrainedDone(val, valb);
      assert data[..i + 1] == whole + (part + [data[i]]);
      whole, part := AccumulateByte(whole, part, data[i], taken0, val0, valb0, modulus, taken, valb);
    }
    assert data == whole + part;
    AccumulatedRange(whole, part, taken, val, valb);
    LastSextet(whole, part, taken, val, valb, modulus);
    if valb > -6 {
      ghost var last: sextet := val * 256 % modulus / Pow2(valb + 8) % 64;
      out := out + [StdChar(val * 256 % modulus / Pow2(valb + 8) % 64)];
      taken := taken + [last];
    }
    ghost var plain := out;
    for i := 0 to |out|
      invariant |out| == |plain|
      invariant forall j | 0 <= j < i :: out[j] == UrlSafe(plain[j])
      invariant forall j | i <= j < |out| :: out[j] == plain[j]
    {
      out := out[i := UrlSafe(out[i])];
    }
    assert out == UrlText(taken);
  }

  lemma NothingAccumulated()
    ensures Accumulated([], [], [], 0, -6) && StdText([]) == ""
  {
  }

  lemma AccumulatedRange(whole: seq<byte>, part: seq<byte>, out: seq<sextet>, val: nat, valb: int)
    requires Accumulated(whole, part, out, val, valb)
    ensures valb == -6 || valb == -4 || valb == -2
  {
  }

  lemma DrainedStep(val: nat, valb: int)
    requires valb >= 0
    ensures Drained(val, valb) == [val / Pow2(valb) % 64] + Drained(val, valb - 6)
  {
  }

  lemma DrainedDone(val: nat, valb: int)
    requires valb < 0
    ensures Drained(val, valb) == []
  {
  }

  // Reducing modulo the word size does not disturb the low twelve bits.
  lemma LowBits(x: nat, modulus: nat)
    requires WordSize(modulus)
    ensures x % modulus % 4096 == x % 4096
  {
    if modulus == 0x1_0000_0000 {
      assert x == 0x1_0000_0000 * (x / 0x1_0000_0000) + x % 0x1_0000_0000;
    } else {
      assert x == 0x1_0000_0000_0000_0000 * (x / 0x1_0000_0000_0000_0000) + x % 0x1_0000_0000_0000_0000;
    }
  }

  // The accumulator after a byte, for the three positions of the byte in its group.
  lemma Shifted(val: nat, d: nat, modulus: nat)
    requires WordSize(modulus) && d < 256
    ensures var v := (val * 256 + d) % modulus;
            && v / 4 % 64 == d / 4 && v % 4 == d % 4
            && v / 16 % 64 == val % 4 * 16 + d / 16 && v % 16 == d % 16
            && v / 64 % 64 == val % 16 * 4 + d / 64 && v % 64 == d % 64
  {
    LowBits(val * 256 + d, modulus);
    ShiftedLow((val * 256 + d) % modulus, val, d);
  }

  lemma ShiftedLow(v: nat, val: nat, d: nat)
    requires d < 256 && v % 4096 == (val * 256 + d) % 4096
    ensures v / 4 % 64 == d / 4 && v % 4 == d % 4
    ensures v / 16 % 64 == val % 4 * 16 + d / 16 && v % 16 == d % 16
    ensures v / 64 % 64 == val % 16 * 4 + d / 64 && v % 64 == d % 64
  {
    ShiftedFirst(v, val, d);
    ShiftedSecond(v, val, d);
    ShiftedThird(v, val, d);
  }

  lemma ShiftedFirst(v: nat, val: nat, d: nat)
    requires d < 256 && v % 4096 == (val * 256 + d) % 4096
    ensures v / 4 % 64 == d / 4 && v % 4 == d % 4
  {
    var k := Low12(v, val, d);
    var j := 16 * k + val % 16;
    assert v == 256 * j + d;
    First(j, d);
  }

  lemma ShiftedSecond(v: nat, val: nat, d: nat)
    requires d < 256 && v % 4096 == (val * 256 + d) % 4096
    ensures v / 16 % 64 == val % 4 * 16 + d / 16 && v % 16 == d % 16
  {
    var k := Low12(v, val, d);
    var q, r := val % 16 / 4, val % 4;
    assert val % 16 == 4 * q + r;
    assert v == 1024 * (4 * k + q) + 256 * r + d;
    Second(4 * k + q, r, d);
  }

  lemma ShiftedThird(v: nat, val: nat, d: nat)
    requires d < 256 && v % 4096 == (val * 256 + d) % 4096
    ensures v / 64 % 64 == val % 16 * 4 + d / 64 && v % 64 == d % 64
  {
    var k := Low12(v, val, d);
    Third(k, val % 16, d);
  }

  lemma Low12(v: nat, val: nat, d: nat) returns (k: nat)
    requires d < 256 && v % 4096 == (val * 256 + d) % 4096
    ensures v == 4096 * k + 256 * (val % 16) + d
  {
    k := v / 4096;
    assert val * 256 + d == 4096 * (val / 16) + (256 * (val % 16) + d);
    assert (val * 256 + d) % 4096 == 256 * (val % 16) + d;
  }

  lemma First(k: nat, d: nat)
    requires d < 256
    ensures (256 * k + d) / 4 % 64 == d / 4 && (256 * k + d) % 4 == d % 4
  {
    assert (256 * k + d) / 4 == 64 * k + d / 4;
  }

  lemma Second(k: nat, h: nat, d: nat)
    requires h < 4 && d < 256
    ensures (1024 * k + 256 * h + d) / 16 % 64 == 16 * h + d / 16 && (1024 * k + 256 * h + d) % 16 == d % 16
  {
    assert (1024 * k + 256 * h + d) / 16 == 64 * k + (16 * h + d / 16);
  }

  lemma Third(k: nat, h: nat, d: nat)
    requires h < 16 && d < 256
    ensures (4096 * k + 256 * h + d) / 64 % 64 == 4 * h + d / 64 && (4096 * k + 256 * h + d) % 64 == d % 64
  {
    assert (4096 * k + 256 * h + d) / 64 == 64 * k + (4 * h + d / 64);
  }

  lemma Powers()
    ensures Pow2(0) == 1 && Pow2(2) == 4 && Pow2(4) == 16 && Pow2(6) == 64
  {
    assert Pow2(3) == 8;
  }

  lemma SmallDrains(v: nat)
    ensures Drained(v, 2) == [v / 4 % 64] && Drained(v, 4) == [v / 16 % 64] && Drained(v, 6) == [v / 64 % 64, v % 64]
  {
    hide Drained;
    Powers();
    DrainedStep(v, 2);
    DrainedDone(v, -4);
    DrainedStep(v, 4);
    DrainedDone(v, -2);
    DrainedStep(v, 6);
    DrainedStep(v, 0);
    DrainedDone(v, -6);
  }

  lemma {:induction false} SextetsAppend(a: seq<byte>, b: seq<byte>)
    requires |a| % 3 == 0
    ensures Sextets(a + b) == Sextets(a) + Sextets(b)
    decreases |a|
  {
    if a == [] {
      assert a + b == b;
    } else {
      SextetsAppend(a[3..], b);
      assert (a + b)[3..] == a[3..] + b;
    }
  }

  lemma AccumulateByte(whole: seq<byte>, part: seq<byte>, d: byte, taken0: seq<sextet>, val0: nat, valb0: int,
                       modulus: nat, taken: seq<sextet>, valb: int)
    returns (whole1: seq<byte>, part1: seq<byte>)
    requires WordSize(modulus) && Accumulated(whole, part, taken0, val0, valb0) && -6 <= valb < 0
    requires taken == taken0 + Drained((val0 * 256 + d) % modulus, valb0 + 8)
    requires (valb - valb0 - 8) % 6 == 0
    ensures whole1 + part1 == whole + (part + [d])
    ensures Accumulated(whole1, part1, taken, (val0 * 256 + d) % modulus, valb)
  {
    hide Drained, Sextets;
    var v := (val0 * 256 + d) % modulus;
    Shifted(val0, d, modulus);
    SmallDrains(v);
    if |part| < 2 {
      whole1, part1 := whole, part + [d];
    } else {
      whole1, part1 := whole + [part[0], part[1], d], [];
      FullGroup(whole, part[0], part[1], d);
    }
  }

  lemma FullGroup(a: seq<byte>, x: byte, y: byte, z: byte)
    requires |a| % 3 == 0
    ensures Sextets(a + [x, y, z]) == Sextets(a) + Group(x, y, z)
  {
    SextetsAppend(a, [x, y, z]);
    assert [x, y, z][3..] == [];
  }

  lemma LastSextet(whole: seq<byte>, part: seq<byte>, out: seq<sextet>, val: nat, valb: int, modulus: nat)
    requires WordSize(modulus) && Accumulated(whole, part, out, val, valb)
    ensures Sextets(whole + part)
         == out + (if valb > -6 then [val * 256 % modulus / Pow2(valb + 8) % 64] else [])
  {
    Shifted(val, 0, modulus);
    Powers();
    SextetsAppend(whole, part);
  }

  // ---- decoding ----

  function UrlIndex(c: char): Option<sextet> {
    if 'A' <= c <= 'Z' then Some(c as int - 'A' as int)
    else if 'a' <= c <= 'z' then Some(c as int - 'a' as int + 26)
    else if '0' <= c <= '9' then Some(c as int - '0' as int + 52)
    else if c == '-' then Some(62)
    else if c == '_' then Some(63)
    else None
  }

  // Strict unpadded base64url: unused bits must be zero, a single left-over character is an error.
  function DecodeUrl(t: string): Option<seq<byte>> {
    if t == "" then Some([])
    else if |t| == 1 then None
    else
      match (UrlIndex(t[0]), UrlIndex(t[1]))
      case (Some(a), Some(b)) =>
        if |t| == 2 then (if b % 16 == 0 then Some([a * 4 + b / 16]) else None)
        else
          (match UrlIndex(t[2])
           case None => None
           case Some(c) =>
             if |t| == 3 then (if c % 4 == 0 then Some([a * 4 + b / 16, b % 16 * 16 + c / 4]) else None)
             else
               match (UrlIndex(t[3]), DecodeUrl(t[4..]))
               case (Some(d), Some(rest)) => Some([a * 4 + b / 16, b % 16 * 16 + c / 4, c % 4 * 64 + d] + rest)
               case _ => None)
      case _ => None
  }

  lemma UrlIndexInverse(n: sextet)
    ensures UrlIndex(UrlSafe(StdChar(n))) == Some(n)
  {
  }

  lemma UrlCharInverse(c: char)
    requires UrlIndex(c).Some?
    ensures UrlSafe(StdChar(UrlIndex(c).value)) == c
  {
  }

  // Four sextets back to three bytes.
  function Ungroup(a: int, b: int, c: int, d: int): (int, int, int) {
    (a * 4 + b / 16, b % 16 * 16 + c / 4, c % 4 * 64 + d)
  }

  lemma GroupBack(x: byte, y: byte, z: byte)
    ensures var g := Group(x, y, z); Ungroup(g[0], g[1], g[2], g[3]) == (x, y, z)
  {
    Mix16(x % 4, y / 16);
    Mix4(y % 16, z / 64);
  }

  lemma GroupForth(a: sextet, b: sextet, c: sextet, d: sextet)
    ensures var (x, y, z) := Ungroup(a, b, c, d);
            0 <= x < 256 && 0 <= y < 256 && 0 <= z < 256 && Group(x, y, z) == [a, b, c, d]
  {
    Mix4(a, b / 16);
    Mix16(b % 16, c / 4);
    Mix64(c % 4, d);
  }

  lemma Mix4(q: nat, r: nat)
    requires r < 4
    ensures (q * 4 + r) / 4 == q && (q * 4 + r) % 4 == r
  {
  }

  lemma Mix16(q: nat, r: nat)
    requires r < 16
    ensures (q * 16 + r) / 16 == q && (q * 16 + r) % 16 == r
  {
  }

  lemma Mix64(q: nat, r: nat)
    requires r < 64
    ensures (q * 64 + r) / 64 == q && (q * 64 + r) % 64 == r
  {
  }

  lemma Characters(s: seq<sextet>)
    ensures forall i | 0 <= i < |s| :: UrlIndex(UrlText(s)[i]) == Some(s[i])
  {
    hide UrlIndex, StdChar, UrlSafe;
    forall i | 0 <= i < |s| ensures UrlIndex(UrlText(s)[i]) == Some(s[i]) {
      UrlIndexInverse(s[i]);
    }
  }

  // Decoding undoes encoding, on every byte string.
  lemma {:induction false} DecodeEncode(data: seq<byte>)
    ensures DecodeUrl(EncodeUrl(data)) == Some(data)
    decreases |data|
  {
    hide UrlIndex, StdChar, UrlSafe, Sextets, DecodeUrl;
    if |data| >= 3 {
      DecodeEncode(data[3..]);
      DecodeGroup(data);
    } else {
      DecodeShort(data);
    }
  }

  lemma DecodeShort(data: seq<byte>)
    requires |data| < 3
    ensures DecodeUrl(EncodeUrl(data)) == Some(data)
  {
    hide UrlIndex, StdChar, UrlSafe;
    Characters(Sextets(data));
    if |data| > 0 {
      var x := data[0];
      assert x == x / 4 * 4 + x % 4 && x % 4 * 16 / 16 == x % 4;
      if |data| == 2 {
        GroupBack(x, data[1], 0);
        assert data == [x, data[1]];
      } else {
        assert data == [x];
      }
    }
  }

  lemma DecodeGroup(data: seq<byte>)
    requires |data| >= 3 && DecodeUrl(EncodeUrl(data[3..])) == Some(data[3..])
    ensures DecodeUrl(EncodeUrl(data)) == Some(data)
  {
    hide UrlIndex, StdChar, UrlSafe, Sextets, Group;
    var t := EncodeUrl(data);
    SextetsUnfold(data);
    Characters(Sextets(data));
    GroupBack(data[0], data[1], data[2]);
    assert t[4..] == EncodeUrl(data[3..]);
    assert data == [data[0], data[1], data[2]] + data[3..];
  }

  lemma SextetsUnfold(data: seq<byte>)
    requires |data| >= 3
    ensures Sextets(data) == Group(data[0], data[1], data[2]) + Sextets(data[3..])
  {
    if |data| == 3 {
      assert data[3..] == [];
    }
  }

  // And encoding undoes decoding: an encoding is the only text that decodes to its bytes.
  lemma {:induction false} EncodeDecode(t: string)
    requires DecodeUrl(t).Some?
    ensures EncodeUrl(DecodeUrl(t).value) == t
    decreases |t|
  {
    hide UrlIndex, StdChar, UrlSafe;
    forall i | 0 <= i < |t| && UrlIndex(t[i]).Some? ensures UrlSafe(StdChar(UrlIndex(t[i]).value)) == t[i] {
      UrlCharInverse(t[i]);
    }
    if |t| >= 4 {
      EncodeDecode(t[4..]);
      EncodeGroup(t);
    }
  }

  lemma EncodeGroup(t: string)
    requires |t| >= 4 && DecodeUrl(t).Some? && DecodeUrl(t[4..]).Some?
    requires EncodeUrl(DecodeUrl(t[4..]).value) == t[4..]
    requires forall i | 0 <= i < |t| && UrlIndex(t[i]).Some? :: UrlSafe(StdChar(UrlIndex(t[i]).value)) == t[i]
    ensures EncodeUrl(DecodeUrl(t).value) == t
  {
    hide UrlIndex, StdChar, UrlSafe, DecodeUrl, Sextets, Group, Ungroup;
    var data, rest := DecodeUrl(t).value, DecodeUrl(t[4..]).value;
    var a, b, c, d := DecodeUnfold(t);
    GroupForth(a, b, c, d);
    assert data[3..] == rest;
    SextetsUnfold(data);
    assert Sextets(data) == [a, b, c, d] + Sextets(rest);
    FourMore([a, b, c, d], Sextets(rest));
    assert t == t[..4] + t[4..];
  }

  lemma DecodeUnfold(t: string) returns (a: sextet, b: sextet, c: sextet, d: sextet)
    requires |t| >= 4 && DecodeUrl(t).Some?
    ensures DecodeUrl(t[4..]).Some?
    ensures [Some(a), Some(b), Some(c), Some(d)] == [UrlIndex(t[0]), UrlIndex(t[1]), UrlIndex(t[2]), UrlIndex(t[3])]
    ensures var (x, y, z) := Ungroup(a, b, c, d);
            0 <= x < 256 && 0 <= y < 256 && 0 <= z < 256 && DecodeUrl(t).value == [x, y, z] + DecodeUrl(t[4..]).value
  {
    hide UrlIndex;
    a, b, c, d := UrlIndex(t[0]).value, UrlIndex(t[1]).value, UrlIndex(t[2]).value, UrlIndex(t[3]).value;
  }

  lemma FourMore(g: seq<sextet>, rest: seq<sextet>)
    ensures UrlText(g + rest) == UrlText(g) + UrlText(rest)
  {
    hide StdChar, UrlSafe;
  }

  // ceil(8n/6) characters, never more than the reserved ((n + 2) / 3) * 4, all from the URL-safe
  // alphabet, without padding.
  lemma {:induction false} EncodedShape(data: seq<byte>)
    ensures |EncodeUrl(data)| == (8 * |data| + 5) / 6 <= (|data| + 2) / 3 * 4
    ensures forall c | c in EncodeUrl(data) :: UrlIndex(c).Some? && c != '='
    decreases |data|
  {
    hide UrlIndex, StdChar, UrlSafe;
    var s := Sextets(data);
    if |data| >= 3 {
      EncodedShape(data[3..]);
    }
    forall i | 0 <= i < |s| ensures UrlIndex(EncodeUrl(data)[i]).Some? && EncodeUrl(data)[i] != '=' {
      UrlIndexInverse(s[i]);
      NoPadding(s[i]);
    }
  }

  lemma NoPadding(n: sextet)
    ensures UrlSafe(StdChar(n)) != '='
  {
  }

  // Test vectors of section 10 of RFC 4648 without their padding, and the two characters in which the
  // URL-safe alphabet differs.
  lemma KnownTexts()
    ensures EncodeUrl([]) == ""
    ensures EncodeUrl([0x66]) == "Zg"
    ensures EncodeUrl([0x66, 0x6F]) == "Zm8"
    ensures EncodeUrl([0x66, 0x6F, 0x6F]) == "Zm9v"
    ensures EncodeUrl([0x66, 0x6F, 0x6F, 0x62]) == "Zm9vYg"
    ensures EncodeUrl([0xFB, 0xFF, 0xBF]) == "-_-_"
  {
    assert [0x66, 0x6F, 0x6F][3..] == [] && [0xFB, 0xFF, 0xBF][3..] == [];
    assert [0x66, 0x6F, 0x6F, 0x62][3..] == [0x62];
    assert Sextets([0x66, 0x6F, 0x6F]) == [25, 38, 61, 47];
    assert Sextets([0x66, 0x6F, 0x6F, 0x62]) == [25, 38, 61, 47, 24, 32];
    assert Sextets([0xFB, 0xFF, 0xBF]) == [62, 63, 62, 63];
  }
}
