/**
 * Printing of strings whose bytes cannot be trusted: quoted when all bytes are
 * harmless, in hexadecimal otherwise.
 */
module AuditStrings {

  type Byte = b: int | 0 <= b < 256

  const QUOTE: Byte := 0x22
  const SPACE: Byte := 0x20

  // ---------------------------------------------------------------- tokens

  /** A byte that may stand between quotes. */
  predicate Plain(b: Byte) { b != QUOTE && 0x21 <= b <= 0x7e }

  predicate AllPlain(s: seq<Byte>) { forall i :: 0 <= i < |s| ==> Plain(s[i]) }

  function HexDigit(n: nat): (d: Byte)
    requires n < 16
  {
    if n < 10 then 0x30 + n else 0x37 + n
  }

  /** Two upper-case digits a byte. */
  function Hex(s: seq<Byte>): (h: seq<Byte>)
    ensures |h| == 2 * |s|
  {
    if s == [] then []
    else
      var b := s[|s| - 1];
      Hex(s[..|s| - 1]) + [HexDigit(b / 16), HexDigit(b % 16)]
  }

  const DIGITS := "0123456789ABCDEF"

  /** The digits of byte `i` are the `2 * i`-th and the next. */
  lemma {:induction false} HexAt(s: seq<Byte>, i: nat)
    requires i < |s|
    ensures Hex(s)[2 * i] == DIGITS[s[i] / 16] as int && Hex(s)[2 * i + 1] == DIGITS[s[i] % 16] as int
  {
    DigitIs(s[i] / 16);
    DigitIs(s[i] % 16);
    hide HexDigit;
    if i < |s| - 1 {
      HexAt(s[..|s| - 1], i);
      assert Hex(s)[..2 * |s| - 2] == Hex(s[..|s| - 1]);
    }
  }

  lemma DigitIs(n: nat)
    requires n < 16
    ensures HexDigit(n) == DIGITS[n] as int
  {
  }

  function Quoted(s: seq<Byte>): seq<Byte> { [QUOTE] + s + [QUOTE] }

  function Token(s: seq<Byte>): seq<Byte> { if AllPlain(s) then Quoted(s) else Hex(s) }

  // ---------------------------------------------------------------- reading them back

  function Digit(d: Byte): int { if d <= 0x39 then d - 0x30 else d - 0x37 }

  function Unhex(h: seq<Byte>): seq<Byte> {
    if |h| < 2 then []
    else Unhex(h[..|h| - 2]) + [(16 * Digit(h[|h| - 2]) + Digit(h[|h| - 1])) % 256]
  }

  function Decode(t: seq<Byte>): seq<Byte> {
    if |t| >= 2 && t[0] == QUOTE then t[1..|t| - 1] else Unhex(t)
  }

  lemma DigitPair(b: Byte)
    ensures 16 * Digit(HexDigit(b / 16)) + Digit(HexDigit(b % 16)) == b
  {
  }

  lemma {:induction false} UnhexHex(s: seq<Byte>)
    ensures Unhex(Hex(s)) == s
  {
    hide HexDigit, Digit;
    if s != [] {
      var h, b := Hex(s), s[|s| - 1];
      UnhexHex(s[..|s| - 1]);
      assert h[..|h| - 2] == Hex(s[..|s| - 1]);
      assert h[|h| - 2] == HexDigit(b / 16) && h[|h| - 1] == HexDigit(b % 16);
      DigitPair(b);
    }
  }

  lemma {:induction false} HexBytes(s: seq<Byte>)
    ensures forall i :: 0 <= i < |Hex(s)| ==> Plain(Hex(s)[i])
  {
    if s != [] { HexBytes(s[..|s| - 1]); }
  }

  /** A string is quoted exactly if it has no quote, no space, no control and no eight-bit byte. */
  lemma TokenMeans(s: seq<Byte>)
    ensures var harmless := forall b :: b in s ==> b != 0x22 && 0x21 <= b <= 0x7e;
            && (harmless ==> Token(s) == [0x22] + s + [0x22])
            && (!harmless ==> |Token(s)| == 2 * |s| && forall i :: 0 <= i < |s| ==>
                  Token(s)[2 * i] == DIGITS[s[i] / 16] as int && Token(s)[2 * i + 1] == DIGITS[s[i] % 16] as int)
  {
    forall i | 0 <= i < |s| ensures Hex(s)[2 * i] == DIGITS[s[i] / 16] as int && Hex(s)[2 * i + 1] == DIGITS[s[i] % 16] as int {
      HexAt(s, i);
    }
    if AllPlain(s) {
      forall b | b in s ensures b != 0x22 && 0x21 <= b <= 0x7e { assert Plain(b); }
    } else {
      var i :| 0 <= i < |s| && !Plain(s[i]);
      assert s[i] in s;
    }
  }

  /** Whatever the string, one decoder recovers it. */
  lemma TokenRoundTrip(s: seq<Byte>)
    ensures Decode(Token(s)) == s
  {
    if AllPlain(s) {
      assert Quoted(s)[1..|Quoted(s)| - 1] == s;
    } else {
      UnhexHex(s);
      HexBytes(s);
    }
  }

  lemma TokensDiffer(s: seq<Byte>, t: seq<Byte>)
    requires Token(s) == Token(t)
    ensures s == t
  {
    TokenRoundTrip(s);
    TokenRoundTrip(t);
  }

  /** A token has no space, control or eight-bit byte, whatever the string has. */
  lemma TokenIsClean(s: seq<Byte>)
    ensures forall i :: 0 <= i < |Token(s)| ==> 0x21 <= Token(s)[i] <= 0x7e
  {
    HexBytes(s);
  }

  /** The part of a record before the first space. */
  function UpToSpace(r: seq<Byte>): seq<Byte> {
    if r == [] || r[0] == SPACE then [] else [r[0]] + UpToSpace(r[1..])
  }

  lemma {:induction false} FirstField(t: seq<Byte>, rest: seq<Byte>)
    requires forall i :: 0 <= i < |t| ==> t[i] != SPACE
    ensures UpToSpace(t + [SPACE] + rest) == t
  {
    if t == [] {
      assert t + [SPACE] + rest == [SPACE] + rest;
    } else {
      FirstField(t[1..], rest);
      assert (t + [SPACE] + rest)[1..] == t[1..] + [SPACE] + rest;
    }
  }

  /** So no string can run into what follows it in the record, nor pass for more than one field. */
  lemma TokenIsDelimited(s: seq<Byte>, rest: seq<Byte>)
    ensures Decode(UpToSpace(Token(s) + [SPACE] + rest)) == s
  {
    TokenIsClean(s);
    FirstField(Token(s), rest);
    TokenRoundTrip(s);
  }

  // ---------------------------------------------------------------- room in the buffer

  const AUDIT_BUFSIZ := 1024

  /** The value of an int that is assigned x. */
  function ToInt(x: int): int { (x + 0x8000_0000) % 0x1_0000_0000 - 0x8000_0000 }

  /** How much audit_log_n_hex asks for, 0 for nothing. */
  function HexRequest(len: nat, avail: nat): int {
    var n := ToInt(2 * len);
    if n >= avail then ToInt(AUDIT_BUFSIZ * ((n - avail) / AUDIT_BUFSIZ + 1)) else 0
  }

  function StringRequest(len: nat, avail: nat): int {
    var n := ToInt(len + 3);
    if n > avail then n else 0
  }

  ghost predicate HexFits(len: nat, avail: nat) {
    2 * len < 0x8000_0000 && 2 * len - avail < 0x8000_0000 - AUDIT_BUFSIZ
  }

  /** There is room for the digits and the terminator exactly as long as the 32-bit arithmetic does not overflow. */
  lemma HexRoom(len: nat, avail: nat)
    requires avail < 0x8000_0000
    ensures avail + HexRequest(len, avail) >= 2 * len + 1 <==> HexFits(len, avail)
  {
  }

  /** Without overflow it asks, if at all, for the fewest whole units that leave room for the terminator. */
  lemma HexAsks(len: nat, avail: nat)
    requires avail < 0x8000_0000 && HexFits(len, avail)
    ensures var r := HexRequest(len, avail);
            if 2 * len < avail then r == 0 else r % 1024 == 0 && avail + r - 1024 < 2 * len + 1 <= avail + r
  {
  }

  lemma HexModest(len: nat, avail: nat)
    requires avail < 0x8000_0000
    ensures 2 * len + AUDIT_BUFSIZ < 0x8000_0000 ==> HexFits(len, avail) && HexRequest(len, avail) <= 2 * len + AUDIT_BUFSIZ
  {
  }

  lemma StringRoom(len: nat, avail: nat)
    requires avail < 0x8000_0000
    ensures avail + StringRequest(len, avail) >= len + 3 <==> len + 3 < 0x8000_0000
  {
  }

  /** A string of 2^30 bytes needs 2^31 digits, which as an int is negative: nothing is asked for. */
  lemma HexOverflows(avail: nat)
    requires avail < 0x8000_0000
    ensures HexRequest(0x4000_0000, avail) == 0 && avail + HexRequest(0x4000_0000, avail) < 2 * 0x4000_0000 + 1
  {
  }

  /** Near the limit the request itself, rounded up, is negative. */
  lemma HexRequestOverflows()
    ensures HexRequest(0x3FFF_FFFF, 0) < 0
  {
  }

  lemma StringOverflows(avail: nat)
    requires avail < 0x8000_0000
    ensures StringRequest(0x8000_0000, avail) == 0 && avail + StringRequest(0x8000_0000, avail) < 0x8000_0000 + 3
  {
  }

  // ---------------------------------------------------------------- writing into the buffer

  /** audit_string_contains_control. */
  method ContainsControl(s: seq<Byte>) returns (r: bool)
    ensures r <==> !AllPlain(s)
    ensures r <==> exists i :: 0 <= i < |s| && (s[i] == 0x22 || s[i] < 0x21 || s[i] > 0x7e)
  {
    var p := 0;
    while p < |s|
      invariant p <= |s| && AllPlain(s[..p])
    {
      if s[p] == QUOTE || s[p] < 0x21 || s[p] > 0x7e { return true; }
      p := p + 1;
    }
    assert s[..|s|] == s;
    return false;
  }

  lemma HexPlus(s: seq<Byte>, i: nat)
    requires i < |s|
    ensures Hex(s[..i + 1]) == Hex(s[..i]) + [HexDigit(s[i] / 16), HexDigit(s[i] % 16)]
  {
    assert s[..i + 1][..i] == s[..i];
  }

  /** How a string is logged: written, given up for want of memory, or past the limit of the int arithmetic. */
  datatype Logged = Written | NoMemory | Overrun

  /** The tail of a message: `len` bytes are used, and the buffer is smaller than 2^31. */
  class AuditBuffer {
    var buf: array<Byte>
    var len: nat

    ghost predicate Valid() reads this { len <= buf.Length < 0x8000_0000 }

    ghost function Text(): seq<Byte>
      requires Valid()
      reads this, buf
    {
      buf[..len]
    }

    constructor ()
      ensures Valid() && Text() == [] && buf.Length == AUDIT_BUFSIZ && fresh(buf)
    {
      buf := new Byte[AUDIT_BUFSIZ](i => 0);
      len := 0;
    }

    /** Whether a buffer with `extra` bytes more can be had; none reaches 2^31 bytes. */
    predicate CanGrow(extra: int, memory: bool, slack: nat) reads this {
      memory && buf.Length + extra + slack < 0x8000_0000
    }

    /** audit_expand: at least `extra` bytes more, if they can be had; the new tail room, or 0. */
    method Expand(extra: nat, memory: bool, slack: nat) returns (avail: nat)
      requires Valid() && extra > 0
      modifies this
      ensures Valid() && len == old(len) && Text() == old(Text()) && (buf == old(buf) || fresh(buf))
      ensures old(CanGrow(extra, memory, slack)) ==> avail == buf.Length - len == old(buf.Length - len) + extra + slack
      ensures !old(CanGrow(extra, memory, slack)) ==> avail == 0 && buf == old(buf)
    {
      if !CanGrow(extra, memory, slack) { return 0; }
      var was := buf;
      buf := new Byte[was.Length + extra + slack](i requires i >= 0 reads was => if i < was.Length then was[i] else 0);
      return buf.Length - len;
    }

    /** Writes bytes after the text and a terminator after them. */
    method Append(t: seq<Byte>)
      requires Valid() && len + |t| < buf.Length
      modifies `len, buf
      ensures Valid() && Text() == old(Text()) + t && len < buf.Length && buf[len] == 0
    {
      var i := 0;
      while i < |t|
        invariant i <= |t| && len == old(len) && buf[..len + i] == old(buf[..len]) + t[..i]
      {
        buf[len + i] := t[i];
        i := i + 1;
      }
      buf[len + i] := 0;
      len := len + |t|;
    }

    /** Two digits a byte through a moving pointer, which starts after the text. */
    method WriteHex(s: seq<Byte>)
      requires Valid() && len + 2 * |s| < buf.Length
      modifies `len, buf
      ensures Valid() && Text() == old(Text()) + Hex(s) && len < buf.Length && buf[len] == 0
    {
      var ptr, i := len, 0;
      while i < |s|
        invariant i <= |s| && len == old(len) && ptr == len + 2 * i
        invariant buf[..ptr] == old(buf[..len]) + Hex(s[..i])
      {
        HexPlus(s, i);
        buf[ptr], buf[ptr + 1] := HexDigit(s[i] / 16), HexDigit(s[i] % 16);
        ptr := ptr + 2;
        i := i + 1;
      }
      assert s[..|s|] == s;
      buf[ptr] := 0;
      len := len + 2 * |s|;
    }

    /**
     * audit_log_n_hex. Nothing is written if the buffer has to grow and cannot. Where the int arithmetic
     * overflows the writes may leave the buffer; the model stops before they do.
     */
    method LogHex(s: seq<Byte>, memory: bool, slack: nat) returns (r: Logged)
      requires Valid()
      modifies this, buf
      ensures Valid() && Text() == old(Text()) + if r == Written then Hex(s) else []
      ensures r == Written ==> len < buf.Length && buf[len] == 0
      ensures HexFits(|s|, old(buf.Length - len)) ==>
                r == if 2 * |s| >= old(buf.Length - len) && !old(CanGrow(HexRequest(|s|, buf.Length - len), memory, slack))
                     then NoMemory else Written
      ensures HexFits(|s|, old(buf.Length - len)) && r == Written ==>
                buf.Length == old(buf.Length)
                  + if 2 * |s| < old(buf.Length - len) then 0 else HexRequest(|s|, old(buf.Length - len)) + slack
      ensures memory && slack == 0 && !HexFits(|s|, old(buf.Length - len)) ==> r != Written
    {
      var avail := buf.Length - len;
      HexRoom(|s|, avail);
      var newLen := ToInt(2 * |s|);
      if newLen >= avail {
        newLen := ToInt(AUDIT_BUFSIZ * ((newLen - avail) / AUDIT_BUFSIZ + 1));
        if newLen <= 0 { return Overrun; }
        avail := Expand(newLen, memory, slack);
        if avail == 0 { return NoMemory; }
      }
      if avail <= 2 * |s| { return Overrun; }
      WriteHex(s);
      return Written;
    }

    /** audit_log_n_string, likewise. */
    method LogString(s: seq<Byte>, memory: bool, slack: nat) returns (r: Logged)
      requires Valid()
      modifies this, buf
      ensures Valid() && Text() == old(Text()) + if r == Written then Quoted(s) else []
      ensures r == Written ==> len < buf.Length && buf[len] == 0
      ensures |s| + 3 < 0x8000_0000 ==>
                r == if |s| + 3 > old(buf.Length - len) && !old(CanGrow(|s| + 3, memory, slack)) then NoMemory else Written
      ensures memory && slack == 0 && |s| + 3 >= 0x8000_0000 ==> r != Written
    {
      var avail := buf.Length - len;
      StringRoom(|s|, avail);
      var newLen := ToInt(|s| + 3);
      if newLen > avail {
        avail := Expand(newLen, memory, slack);
        if avail == 0 { return NoMemory; }
      }
      if avail < |s| + 3 { return Overrun; }
      Append([QUOTE] + s + [QUOTE]);
      return Written;
    }

    /** audit_log_n_untrustedstring: the token of the string, or nothing if memory runs out. */
    method LogUntrusted(s: seq<Byte>, memory: bool, slack: nat) returns (r: Logged)
      requires Valid()
      modifies this, buf
      ensures Valid() && Text() == old(Text()) + if r == Written then Token(s) else []
      ensures r == Written ==> len < buf.Length && buf[len] == 0
      ensures r == Overrun ==> if AllPlain(s) then |s| + 3 >= 0x8000_0000 else !HexFits(|s|, old(buf.Length - len))
      ensures memory && old(buf.Length) + 2 * |s| + AUDIT_BUFSIZ + slack < 0x8000_0000 ==> r == Written
      ensures var avail := old(buf.Length - len);
              && (AllPlain(s) && |s| + 3 < 0x8000_0000 ==>
                    r == if |s| + 3 > avail && !old(CanGrow(|s| + 3, memory, slack)) then NoMemory else Written)
              && (!AllPlain(s) && HexFits(|s|, avail) ==>
                    r == if 2 * |s| >= avail && !old(CanGrow(HexRequest(|s|, avail), memory, slack)) then NoMemory else Written)
    {
      HexModest(|s|, buf.Length - len);
      hide HexRequest, HexFits, Hex;
      var control := ContainsControl(s);
      if control {
        r := LogHex(s, memory, slack);
      } else {
        r := LogString(s, memory, slack);
      }
    }
  }
}
