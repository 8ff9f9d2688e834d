/**
 * Logging of execve arguments: long arguments are cut into pieces, and pieces are
 * spread over records of bounded size.
 */
module ExecveArgs {
  import opened Options
  import opened AuditStrings

  const MAX_EXECVE_AUDIT_LEN := 7500
  const MAX_ARG_STRLEN := 131072

  /** " a<n>_len=<bytes>", and " a<n>=<token>" or " a<n>[<index>]=<token>". */
  datatype Item = Length(arg: nat, bytes: nat) | Piece(arg: nat, index: Option<nat>, token: seq<Byte>)

  function Digits(n: nat): nat { if n < 10 then 1 else 1 + Digits(n / 10) }

  /** arg_num_len: the digits of the argument number and 5 for the rest of ` a=""`. */
  function NumLen(n: nat): nat { Digits(n) + 5 }

  // ---------------------------------------------------------------- what is to be logged

  function Min(a: nat, b: nat): nat { if a < b then a else b }

  /** The most bytes of an argument that one piece carries. */
  function PieceLen(hex: bool): (r: nat)
    ensures r > 0
  {
    if hex then MAX_EXECVE_AUDIT_LEN / 2 else MAX_EXECVE_AUDIT_LEN
  }

  function Encoded(s: seq<Byte>, hex: bool): seq<Byte> { if hex then Hex(s) else Quoted(s) }

  /** The pieces of what is left of argument `n`, from index `i` on. */
  function Pieces(n: nat, rest: seq<Byte>, i: nat, hex: bool, tooLong: bool): seq<Item>
    decreases |rest|
  {
    if rest == [] then []
    else
      var k := Min(|rest|, PieceLen(hex));
      [Piece(n, if tooLong then Some(i) else None, Encoded(rest[..k], hex))] + Pieces(n, rest[k..], i + 1, hex, tooLong)
  }

  /** All items of one argument: when it takes several pieces, its encoded length comes first. */
  function Expected(n: nat, arg: seq<Byte>): seq<Item> {
    var hex := !AllPlain(arg);
    var tooLong := |arg| > PieceLen(hex);
    (if tooLong then [Length(n, if hex then 2 * |arg| else |arg|)] else []) + Pieces(n, arg, 0, hex, tooLong)
  }

  function AllExpected(args: seq<seq<Byte>>): seq<Item> {
    if args == [] then []
    else AllExpected(args[..|args| - 1]) + Expected(|args| - 1, args[|args| - 1])
  }

  // ---------------------------------------------------------------- reading it back

  /** The argument as a reader puts it together from the log. */
  function Recover(items: seq<Item>, n: nat): seq<Byte> {
    if items == [] then []
    else Part(items[0], n) + Recover(items[1..], n)
  }

  /** What one item contributes to argument `n`. */
  function Part(x: Item, n: nat): seq<Byte> {
    if x.Piece? && x.arg == n then Decode(x.token) else []
  }

  /** Bytes of an encoding proper, without quotes. */
  function Payload(token: seq<Byte>): nat {
    if |token| >= 2 && token[0] == QUOTE then |token| - 2 else |token|
  }

  function TotalPayload(items: seq<Item>): nat {
    if items == [] then 0
    else (if items[0].Piece? then Payload(items[0].token) else 0) + TotalPayload(items[1..])
  }

  lemma EncodedDecodes(s: seq<Byte>, hex: bool)
    requires s != []
    ensures Decode(Encoded(s, hex)) == s && Payload(Encoded(s, hex)) == if hex then 2 * |s| else |s|
  {
    if hex {
      UnhexHex(s);
      HexBytes(s);
      assert Plain(Hex(s)[0]);
    } else {
      assert Quoted(s)[1..|Quoted(s)| - 1] == s;
    }
  }

  lemma PiecesStep(n: nat, rest: seq<Byte>, i: nat, hex: bool, tooLong: bool)
    requires rest != []
    ensures var k := Min(|rest|, PieceLen(hex)); var all := Pieces(n, rest, i, hex, tooLong);
            && 0 < k <= |rest| && rest == rest[..k] + rest[k..] && all != []
            && all[0] == Piece(n, if tooLong then Some(i) else None, Encoded(rest[..k], hex))
            && all[1..] == Pieces(n, rest[k..], i + 1, hex, tooLong)
  {
    hide Encoded;
  }

  lemma {:induction false} PiecesRecover(n: nat, rest: seq<Byte>, i: nat, hex: bool, tooLong: bool)
    ensures Recover(Pieces(n, rest, i, hex, tooLong), n) == rest
    decreases |rest|
  {
    hide Encoded, Decode, Payload, Pieces;
    if rest == [] {
      NoPieces(n, i, hex, tooLong);
    } else {
      var k := Min(|rest|, PieceLen(hex));
      PiecesStep(n, rest, i, hex, tooLong);
      PiecesRecover(n, rest[k..], i + 1, hex, tooLong);
      EncodedDecodes(rest[..k], hex);
    }
  }

  lemma {:induction false} PiecesPayload(n: nat, rest: seq<Byte>, i: nat, hex: bool, tooLong: bool)
    ensures TotalPayload(Pieces(n, rest, i, hex, tooLong)) == if hex then 2 * |rest| else |rest|
    decreases |rest|
  {
    hide Encoded, Decode, Payload, Pieces;
    if rest == [] {
      NoPieces(n, i, hex, tooLong);
    } else {
      var k := Min(|rest|, PieceLen(hex));
      PiecesStep(n, rest, i, hex, tooLong);
      PiecesPayload(n, rest[k..], i + 1, hex, tooLong);
      EncodedDecodes(rest[..k], hex);
    }
  }

  lemma NoPieces(n: nat, i: nat, hex: bool, tooLong: bool)
    ensures Pieces(n, [], i, hex, tooLong) == []
  {
  }

  lemma {:induction false} PiecesOfOther(n: nat, rest: seq<Byte>, i: nat, hex: bool, tooLong: bool, m: nat)
    requires n != m
    ensures Recover(Pieces(n, rest, i, hex, tooLong), m) == []
    decreases |rest|
  {
    if rest != [] {
      var k := Min(|rest|, PieceLen(hex));
      PiecesOfOther(n, rest[k..], i + 1, hex, tooLong, m);
      assert Pieces(n, rest, i, hex, tooLong)[1..] == Pieces(n, rest[k..], i + 1, hex, tooLong);
    }
  }

  lemma {:induction false} RecoverJoins(a: seq<Item>, b: seq<Item>, n: nat)
    ensures Recover(a + b, n) == Recover(a, n) + Recover(b, n)
  {
    hide Part;
    if a == [] {
      assert a + b == b;
    } else {
      RecoverJoins(a[1..], b, n);
      assert (a + b)[1..] == a[1..] + b;
      AssocBytes(Part(a[0], n), Recover(a[1..], n), Recover(b, n));
    }
  }

  lemma AssocBytes(a: seq<Byte>, b: seq<Byte>, c: seq<Byte>)
    ensures a + (b + c) == a + b + c
  {
  }

  /** The pieces of an argument decode to it and to nothing else, and the length announced for it is that of its pieces. */
  lemma ExpectedRecovers(n: nat, arg: seq<Byte>)
    ensures Recover(Expected(n, arg), n) == arg
    ensures forall m :: m != n ==> Recover(Expected(n, arg), m) == []
    ensures forall x :: x in Expected(n, arg) && x.Length? ==> x == Length(n, TotalPayload(Expected(n, arg)))
  {
    var hex := !AllPlain(arg);
    var tooLong := |arg| > PieceLen(hex);
    var head := if tooLong then [Length(n, if hex then 2 * |arg| else |arg|)] else [];
    var pieces := Pieces(n, arg, 0, hex, tooLong);
    PiecesRecover(n, arg, 0, hex, tooLong);
    PiecesPayload(n, arg, 0, hex, tooLong);
    PiecesOnly(n, arg, 0, hex, tooLong);
    forall m ensures Recover(head + pieces, m) == Recover(pieces, m) {
      RecoverJoins(head, pieces, m);
    }
    forall m | m != n ensures Recover(pieces, m) == [] { PiecesOfOther(n, arg, 0, hex, tooLong, m); }
    assert tooLong ==> (head + pieces)[1..] == pieces;
    assert !tooLong ==> head + pieces == pieces;
  }

  lemma {:induction false} PiecesOnly(n: nat, rest: seq<Byte>, i: nat, hex: bool, tooLong: bool)
    ensures forall x :: x in Pieces(n, rest, i, hex, tooLong) ==> x.Piece?
    decreases |rest|
  {
    if rest != [] {
      var k := Min(|rest|, PieceLen(hex));
      PiecesOnly(n, rest[k..], i + 1, hex, tooLong);
    }
  }

  /** Where piece `k` of an argument starts. */
  function Offset(hex: bool, k: nat): nat {
    if k == 0 then 0 else Offset(hex, k - 1) + PieceLen(hex)
  }

  lemma {:induction false} OffsetIs(hex: bool, k: nat)
    ensures Offset(hex, k) == k * if hex then 3750 else 7500
  {
    if k > 0 { OffsetIs(hex, k - 1); }
  }

  /** The bytes piece `k` carries. */
  function Stretch(arg: seq<Byte>, hex: bool, k: nat): seq<Byte>
    requires Offset(hex, k) <= |arg|
  {
    arg[Offset(hex, k)..Offset(hex, k) + Min(|arg| - Offset(hex, k), PieceLen(hex))]
  }

  lemma StretchNext(rest: seq<Byte>, hex: bool, k: nat)
    requires k > 0 && Offset(hex, k) <= |rest|
    ensures PieceLen(hex) <= |rest| && Offset(hex, k - 1) <= |rest[PieceLen(hex)..]|
    ensures Stretch(rest[PieceLen(hex)..], hex, k - 1) == Stretch(rest, hex, k)
  {
    hide Offset;
    OffsetStep(hex, k);
    SliceShift(rest, PieceLen(hex), Offset(hex, k), Min(|rest| - Offset(hex, k), PieceLen(hex)));
  }

  lemma SliceShift(s: seq<Byte>, m: nat, lo: nat, len: nat)
    requires m <= lo && lo + len <= |s|
    ensures s[m..][lo - m..lo - m + len] == s[lo..lo + len]
  {
  }

  lemma FirstStretch(rest: seq<Byte>, hex: bool)
    ensures Offset(hex, 0) == 0 && Stretch(rest, hex, 0) == rest[..Min(|rest|, PieceLen(hex))]
  {
  }

  lemma OffsetStep(hex: bool, k: nat)
    requires k > 0
    ensures Offset(hex, k) == Offset(hex, k - 1) + PieceLen(hex) >= PieceLen(hex)
  {
  }

  /** Piece `k` carries the `k`-th stretch, with its number if there are several. */
  lemma {:induction false} PieceAt(n: nat, rest: seq<Byte>, i: nat, hex: bool, tooLong: bool, k: nat)
    ensures var all := Pieces(n, rest, i, hex, tooLong);
            && (k < |all| <==> Offset(hex, k) < |rest|)
            && (k < |all| ==> all[k] == Piece(n, if tooLong then Some(i + k) else None, Encoded(Stretch(rest, hex, k), hex)))
    decreases |rest|
  {
    hide Encoded, Pieces, Stretch, Offset, PieceLen;
    if rest == [] {
      NoPieces(n, i, hex, tooLong);
    } else {
      var m := Min(|rest|, PieceLen(hex));
      PiecesStep(n, rest, i, hex, tooLong);
      if k == 0 {
        FirstStretch(rest, hex);
      } else {
        OffsetStep(hex, k);
        PieceAt(n, rest[m..], i + 1, hex, tooLong, k - 1);
        if Offset(hex, k) <= |rest| { StretchNext(rest, hex, k); }
      }
    }
  }

  /** An argument is cut into stretches of 7500 bytes, or of 3750 in hexadecimal; if there are several, they are
      numbered and the encoded length comes first. */
  lemma ExpectedMeans(n: nat, arg: seq<Byte>, k: nat)
    ensures var hex, all := !AllPlain(arg), Expected(n, arg);
            var max := if hex then 3750 else 7500;
            var several, lo := |arg| > max, k * max;
            var first := if several then 1 else 0;
            && |all| >= first && (several ==> all[0] == Length(n, if hex then 2 * |arg| else |arg|))
            && (first + k < |all| <==> lo < |arg|)
            && (first + k < |all| ==>
                  var frag := arg[lo..lo + Min(|arg| - lo, max)];
                  all[first + k] == Piece(n, if several then Some(k) else None, Encoded(frag, hex)))
  {
    hide Encoded, Pieces, AllPlain;
    OffsetIs(!AllPlain(arg), k);
    hide Offset;
    PieceAt(n, arg, 0, !AllPlain(arg), |arg| > PieceLen(!AllPlain(arg)), k);
  }

  /** Every argument of the call can be read back from a complete log. */
  lemma {:induction false} EveryArgumentRecovered(args: seq<seq<Byte>>, n: nat)
    ensures Recover(AllExpected(args), n) == if n < |args| then args[n] else []
  {
    if args != [] {
      var last := |args| - 1;
      EveryArgumentRecovered(args[..last], n);
      RecoverJoins(AllExpected(args[..last]), Expected(last, args[last]), n);
      ExpectedRecovers(last, args[last]);
    }
  }

  lemma {:induction false} OffsetMono(hex: bool, j: nat, k: nat)
    requires j <= k
    ensures Offset(hex, j) <= Offset(hex, k) && (j < k ==> Offset(hex, j) + PieceLen(hex) <= Offset(hex, k))
  {
    if j < k { OffsetMono(hex, j, k - 1); }
  }

  /** The first walk gets as far as reading chunk `k`: all before it is plain, and there is something left. */
  ghost predicate ReadBy(arg: seq<Byte>, k: nat) {
    (k == 0 || Offset(false, k) < |arg|) && AllPlain(arg[..Offset(false, k)])
  }

  /** All chunks up to `last`, where a byte needs hexadecimal or the argument ends, are read, and no more. */
  lemma ReadUpTo(arg: seq<Byte>, last: nat, copy: nat -> bool)
    requires ReadBy(arg, last) && forall k :: 0 <= k <= last ==> copy(k)
    requires var end := Offset(false, last) + PieceLen(false); end >= |arg| || !AllPlain(arg[..end])
    ensures forall k :: ReadBy(arg, k) ==> copy(k)
  {
    forall k: nat | ReadBy(arg, k) ensures copy(k) { NotReadAfter(arg, last, k); }
  }

  lemma NotReadAfter(arg: seq<Byte>, last: nat, k: nat)
    requires ReadBy(arg, k)
    requires var end := Offset(false, last) + PieceLen(false); end >= |arg| || !AllPlain(arg[..end])
    ensures k <= last
  {
    if k > last { OffsetMono(false, last, k); }
  }

  // ---------------------------------------------------------------- records

  /** All items, in the order in which they were logged. */
  ghost function Flat(records: seq<seq<Item>>): seq<Item> {
    if records == [] then [] else Flat(records[..|records| - 1]) + records[|records| - 1]
  }

  /** What is counted against the size of a record. */
  function Counted(x: Item): nat { if x.Piece? then NumLen(x.arg) + Payload(x.token) else 0 }

  function Size(record: seq<Item>): nat {
    if record == [] then 0 else Size(record[..|record| - 1]) + Counted(record[|record| - 1])
  }

  /** The record being written, with these items more. */
  function Grown(records: seq<seq<Item>>, items: seq<Item>): seq<seq<Item>>
    requires records != []
  {
    records[|records| - 1 := records[|records| - 1] + items]
  }

  lemma GrownTwice(records: seq<seq<Item>>, a: seq<Item>, b: seq<Item>)
    requires records != []
    ensures Grown(Grown(records, a), b) == Grown(records, a + b) && Grown(records, []) == records
  {
    var last := records[|records| - 1];
    assert last + a + b == last + (a + b) && last + [] == last;
  }

  lemma AddFlat(records: seq<seq<Item>>, x: Item)
    requires records != []
    ensures Flat(Grown(records, [x])) == Flat(records) + [x]
  {
  }

  lemma AddSize(record: seq<Item>, x: Item)
    ensures Size(record + [x]) == Size(record) + Counted(x)
  {
  }

  lemma AddValid(records: seq<seq<Item>>, x: Item, sent: nat)
    requires records != [] && sent == Size(records[|records| - 1]) && sent + Counted(x) <= MAX_EXECVE_AUDIT_LEN + 15
    requires forall k :: 0 <= k < |records| ==> Bounded(records[k])
    ensures var r := Grown(records, [x]);
            && |r| == |records| && sent + Counted(x) == Size(r[|r| - 1]) && forall k :: 0 <= k < |r| ==> Bounded(r[k])
  {
    hide Size, Counted;
    AddSize(records[|records| - 1], x);
  }

  lemma OpenIs(records: seq<seq<Item>>)
    ensures Flat(records + [[]]) == Flat(records) && Size([]) == 0
  {
  }

  /** A record exceeds the limit by no more than the label of one argument. */
  ghost predicate Bounded(record: seq<Item>) { Size(record) <= MAX_EXECVE_AUDIT_LEN + 15 }

  lemma IntDigits(n: nat)
    requires n < 0x8000_0000
    ensures NumLen(n) <= 15
  {
    assert Digits(n / 10 / 10 / 10 / 10 / 10 / 10 / 10 / 10 / 10) == 1;
    assert Digits(n / 10 / 10 / 10 / 10 / 10 / 10 / 10 / 10) <= 2;
    assert Digits(n / 10 / 10 / 10 / 10 / 10 / 10 / 10) <= 3;
    assert Digits(n / 10 / 10 / 10 / 10 / 10 / 10) <= 4;
    assert Digits(n / 10 / 10 / 10 / 10 / 10) <= 5;
    assert Digits(n / 10 / 10 / 10 / 10) <= 6;
    assert Digits(n / 10 / 10 / 10) <= 7;
    assert Digits(n / 10 / 10) <= 8;
    assert Digits(n / 10) <= 9;
  }

  /** How a call ends: everything logged, no new record to be had, or the argument unreadable. */
  datatype Outcome = Done(consumed: nat) | Stopped | Killed

  /** The bytes of a buffer before its terminator. */
  function CString(s: seq<Byte>): seq<Byte> {
    if s == [] || s[0] == 0 then [] else [s[0]] + CString(s[1..])
  }

  lemma {:induction false} PlainCString(s: seq<Byte>)
    requires AllPlain(s)
    ensures CString(s + [0]) == s
  {
    if s != [] {
      PlainCString(s[1..]);
      assert (s + [0])[1..] == s[1..] + [0];
    }
  }

  lemma PieceCost(n: nat, index: Option<nat>, frag: seq<Byte>, hex: bool)
    requires n < 0x8000_0000 && frag != [] && (hex || AllPlain(frag))
    ensures NumLen(n) <= 15
    ensures Counted(Piece(n, index, Encoded(frag, hex))) == NumLen(n) + if hex then |frag| * 2 else |frag|
    ensures Encoded(frag, hex) == if hex then Hex(frag) else Quoted(CString(frag + [0]))
  {
    IntDigits(n);
    EncodedDecodes(frag, hex);
    PlainCStringOf(frag, hex);
  }

  lemma LengthCost(n: nat, bytes: nat)
    ensures Counted(Length(n, bytes)) == 0
  {
  }

  lemma PlainCStringOf(frag: seq<Byte>, hex: bool)
    requires hex || AllPlain(frag)
    ensures Encoded(frag, hex) == if hex then Hex(frag) else Quoted(CString(frag + [0]))
  {
    if !hex { PlainCString(frag); }
  }

  /** What is still to be logged of an argument when `off` bytes of it, in `i` pieces, have been. */
  function Rest(n: nat, arg: seq<Byte>, off: nat, i: nat, hex: bool, tooLong: bool): seq<Item>
    requires off <= |arg|
  {
    Head(n, arg, i, hex, tooLong) + Pieces(n, arg[off..], i, hex, tooLong)
  }

  /** What comes before the next piece: the length, if it is the first of several. */
  function Head(n: nat, arg: seq<Byte>, i: nat, hex: bool, tooLong: bool): seq<Item> {
    if i == 0 && tooLong then [Length(n, if hex then 2 * |arg| else |arg|)] else []
  }

  /** The items the next piece adds. */
  function Next(n: nat, arg: seq<Byte>, off: nat, i: nat, hex: bool, tooLong: bool, k: nat): seq<Item>
    requires off + k <= |arg|
  {
    Head(n, arg, i, hex, tooLong)
    + [Piece(n, if tooLong then Some(i) else None, Encoded(arg[off..off + k], hex))]
  }

  lemma RestStep(n: nat, arg: seq<Byte>, off: nat, i: nat, hex: bool, tooLong: bool, k: nat)
    requires off < |arg| && k == Min(|arg| - off, PieceLen(hex))
    ensures Rest(n, arg, off, i, hex, tooLong) == Next(n, arg, off, i, hex, tooLong, k) + Rest(n, arg, off + k, i + 1, hex, tooLong)
  {
    var rest := arg[off..];
    assert rest[..k] == arg[off..off + k] && rest[k..] == arg[off + k..];
  }

  lemma RestAll(n: nat, arg: seq<Byte>, hex: bool, tooLong: bool)
    requires (hex <==> !AllPlain(arg)) && (tooLong <==> |arg| > PieceLen(hex))
    ensures [] + Rest(n, arg, 0, 0, hex, tooLong) == Expected(n, arg)
  {
  }

  /** When the whole argument is logged nothing is left, unless it was empty and nothing was to be logged at all. */
  lemma RestNone(n: nat, arg: seq<Byte>, i: nat, hex: bool, tooLong: bool)
    requires i == 0 ==> arg == []
    requires tooLong ==> arg != []
    ensures Rest(n, arg, |arg|, i, hex, tooLong) == []
  {
  }

  lemma AssocItems(a: seq<Item>, b: seq<Item>, c: seq<Item>)
    ensures a + b + c == a + (b + c)
  {
  }

  lemma Shift(a: seq<Item>, b: seq<Item>, c: seq<Item>, d: seq<Item>)
    ensures a + b + c == a + (b + c) && b + (c + d) == b + c + d
  {
  }

  lemma PrefixOf(a: seq<Item>, b: seq<Item>)
    ensures a <= a <= a + b
  {
  }

  lemma PlainPart(arg: seq<Byte>, off: nat, k: nat)
    requires off + k <= |arg|
    ensures AllPlain(arg) ==> AllPlain(arg[off..off + k])
  {
  }

  lemma PrefixHead(a: seq<Item>, b: seq<Item>, n: nat, arg: seq<Byte>, off: nat, i: nat, hex: bool, tooLong: bool)
    requires off <= |arg| && b + Rest(n, arg, off, i, hex, tooLong) == Expected(n, arg)
    ensures a <= a + b + Head(n, arg, i, hex, tooLong) <= a + Expected(n, arg)
  {
    hide Expected, Pieces, Head;
    var c, d := Head(n, arg, i, hex, tooLong), Pieces(n, arg[off..], i, hex, tooLong);
    assert a + (b + (c + d)) == a + b + c + d;
  }

  lemma PrefixStep(a: seq<Item>, b: seq<Item>, c: seq<Item>, all: seq<Item>)
    requires b + c == all
    ensures a <= a + b <= a + all
  {
  }

  lemma NoneExpected(args: seq<seq<Byte>>)
    ensures AllExpected(args[..0]) == []
  {
  }

  lemma ExpectedPlus(args: seq<seq<Byte>>, i: nat)
    requires i < |args|
    ensures AllExpected(args[..i + 1]) == AllExpected(args[..i]) + Expected(i, args[i])
  {
    assert args[..i + 1][..i] == args[..i];
  }

  lemma {:induction false} ExpectedGrows(args: seq<seq<Byte>>, i: nat)
    requires i <= |args|
    ensures AllExpected(args[..i]) <= AllExpected(args)
  {
    if i == |args| {
      assert args[..i] == args;
    } else {
      var most := args[..|args| - 1];
      ExpectedGrows(most, i);
      assert most[..i] == args[..i];
    }
  }

  lemma ScanStart(arg: seq<Byte>)
    ensures ReadBy(arg, 0) && Offset(false, 0) == 0 && AllPlain(arg[..0])
  {
  }

  lemma ScanStep(arg: seq<Byte>, off: nat, k: nat, chunk: nat)
    requires off + k <= |arg| && off == Offset(false, chunk) && AllPlain(arg[..off]) && k == Min(|arg| - off, MAX_EXECVE_AUDIT_LEN)
    ensures AllPlain(arg[off..off + k]) <==> AllPlain(arg[..off + k])
    ensures AllPlain(arg) ==> AllPlain(arg[off..off + k])
    ensures AllPlain(arg[..off + k]) && off + k < |arg| ==> off + k == Offset(false, chunk + 1) && ReadBy(arg, chunk + 1)
    ensures !AllPlain(arg[..off + k]) && off + PieceLen(false) <= |arg| ==> !AllPlain(arg[..off + PieceLen(false)])
  {
    assert arg[..off + k] == arg[..off] + arg[off..off + k];
  }

  /** Whether the record with `sent` bytes has room for a piece of `k` bytes. */
  predicate HasRoom(n: nat, k: nat, hex: bool, sent: nat) {
    sent + Cost(n, k, hex) <= MAX_EXECVE_AUDIT_LEN
  }

  /** What a piece of `k` bytes counts: the label, and two digits a byte in hexadecimal. */
  function Cost(n: nat, k: nat, hex: bool): nat { NumLen(n) + if hex then 2 * k else k }

  function StretchLen(len: nat, hex: bool, k: nat): nat {
    if Offset(hex, k) < len then Min(len - Offset(hex, k), PieceLen(hex)) else 0
  }

  /** What is counted in the record being written before piece `k`: one without room for a piece is left for a new one. */
  ghost function SentAt(n: nat, len: nat, hex: bool, sent: nat, k: nat): nat {
    if k == 0 then sent else
      var was, size := SentAt(n, len, hex, sent, k - 1), StretchLen(len, hex, k - 1);
      (if HasRoom(n, size, hex, was) then was else 0) + Cost(n, size, hex)
  }

  ghost predicate FindsRecord(n: nat, len: nat, hex: bool, sent: nat, start: nat -> bool, k: nat) {
    HasRoom(n, StretchLen(len, hex, k), hex, SentAt(n, len, hex, sent, k)) || start(k)
  }

  /** Piece `k` finds a record and, unless the argument is still in the buffer, can be read again. */
  ghost predicate GoesOut(n: nat, len: nat, hex: bool, sent: nat, recopy: nat -> bool, start: nat -> bool, k: nat) {
    FindsRecord(n, len, hex, sent, start, k) && (len < PieceLen(hex) || recopy(k))
  }

  /** The argument is not too long and its first walk reads all it has to. */
  ghost predicate Scanned(arg: seq<Byte>, copy: nat -> bool) {
    |arg| < MAX_ARG_STRLEN && forall k :: ReadBy(arg, k) ==> copy(k)
  }

  ghost predicate PiecesGoOut(n: nat, len: nat, hex: bool, sent: nat, recopy: nat -> bool, start: nat -> bool) {
    forall k :: Offset(hex, k) < len ==> GoesOut(n, len, hex, sent, recopy, start, k)
  }

  ghost predicate FirstGoOut(n: nat, len: nat, hex: bool, sent: nat, recopy: nat -> bool, start: nat -> bool, k: nat) {
    forall j :: 0 <= j < k ==> GoesOut(n, len, hex, sent, recopy, start, j)
  }

  /** The argument is read, and every piece of it goes out. */
  ghost predicate AllGoesOut(n: nat, arg: seq<Byte>, sent: nat, copy: nat -> bool, recopy: nat -> bool, start: nat -> bool) {
    Scanned(arg, copy) && PiecesGoOut(n, |arg|, !AllPlain(arg), sent, recopy, start)
  }

  /** The first piece that does not go out finds no record. */
  ghost predicate NoRecord(n: nat, len: nat, hex: bool, sent: nat, recopy: nat -> bool, start: nat -> bool, k: nat) {
    && Offset(hex, k) < len && !FindsRecord(n, len, hex, sent, start, k)
    && FirstGoOut(n, len, hex, sent, recopy, start, k)
  }

  ghost predicate RunsOut(n: nat, len: nat, hex: bool, sent: nat, recopy: nat -> bool, start: nat -> bool) {
    exists k :: NoRecord(n, len, hex, sent, recopy, start, k)
  }

  function NumPieces(arg: seq<Byte>, hex: bool): nat { |Pieces(0, arg, 0, hex, false)| }

  /** What is counted in the record being written after argument `n`. */
  ghost function SentAfter(n: nat, arg: seq<Byte>, sent: nat): nat {
    SentAt(n, |arg|, !AllPlain(arg), sent, NumPieces(arg, !AllPlain(arg)))
  }

  ghost function SentBefore(args: seq<seq<Byte>>, i: nat): nat
    requires i <= |args|
  {
    if i == 0 then 0 else SentAfter(i - 1, args[i - 1], SentBefore(args, i - 1))
  }

  lemma NumPiecesIs(arg: seq<Byte>, hex: bool, k: nat)
    requires Offset(hex, k) >= |arg| && (k > 0 ==> Offset(hex, k - 1) < |arg|)
    ensures NumPieces(arg, hex) == k
  {
    hide Offset, Pieces, Encoded;
    PieceAt(0, arg, 0, hex, false, k);
    if k > 0 { PieceAt(0, arg, 0, hex, false, k - 1); }
  }

  /** The `i`-th piece starts where the pieces before it end, if any of the argument is left there. */
  ghost predicate At(len: nat, hex: bool, off: nat, i: nat) {
    && off <= len && (off < len ==> off == Offset(hex, i)) && (off == len ==> Offset(hex, i) >= len)
    && (i > 0 ==> Offset(hex, i - 1) < len)
  }

  lemma AtStart(len: nat, hex: bool)
    ensures At(len, hex, 0, 0)
  {
  }

  lemma AtNext(n: nat, len: nat, hex: bool, sent: nat, start: nat -> bool, off: nat, i: nat, k: nat)
    requires At(len, hex, off, i) && off < len && k == Min(len - off, PieceLen(hex))
    ensures At(len, hex, off + k, i + 1) && StretchLen(len, hex, i) == k
    ensures var was := SentAt(n, len, hex, sent, i);
            && SentAt(n, len, hex, sent, i + 1) == (if HasRoom(n, k, hex, was) then was else 0) + Cost(n, k, hex)
            && (FindsRecord(n, len, hex, sent, start, i) <==> HasRoom(n, k, hex, was) || start(i))
  {
    OffsetStep(hex, i + 1);
    hide Offset;
  }

  lemma AtEnd(n: nat, arg: seq<Byte>, hex: bool, sent: nat, recopy: nat -> bool, start: nat -> bool, i: nat)
    requires At(|arg|, hex, |arg|, i) && FirstGoOut(n, |arg|, hex, sent, recopy, start, i)
    ensures PiecesGoOut(n, |arg|, hex, sent, recopy, start) && NumPieces(arg, hex) == i
    ensures !RunsOut(n, |arg|, hex, sent, recopy, start)
  {
    NumPiecesIs(arg, hex, i);
    hide Offset, SentAt, HasRoom, FindsRecord;
    forall k: nat | Offset(hex, k) < |arg| ensures GoesOut(n, |arg|, hex, sent, recopy, start, k) { OffsetBelow(hex, k, i); }
  }

  lemma OffsetBelow(hex: bool, k: nat, i: nat)
    requires Offset(hex, k) < Offset(hex, i)
    ensures k < i
  {
    if k >= i { OffsetMono(hex, i, k); }
  }

  lemma AtStop(n: nat, len: nat, hex: bool, sent: nat, recopy: nat -> bool, start: nat -> bool, off: nat, i: nat)
    requires At(len, hex, off, i) && off < len && FirstGoOut(n, len, hex, sent, recopy, start, i)
    requires !GoesOut(n, len, hex, sent, recopy, start, i)
    ensures !PiecesGoOut(n, len, hex, sent, recopy, start)
    ensures RunsOut(n, len, hex, sent, recopy, start) <==> !FindsRecord(n, len, hex, sent, start, i)
  {
    hide Offset, SentAt, HasRoom, FindsRecord;
    assert Offset(hex, i) < len;
    if RunsOut(n, len, hex, sent, recopy, start) {
      var k :| NoRecord(n, len, hex, sent, recopy, start, k);
      assert !GoesOut(n, len, hex, sent, recopy, start, k);
      assert k == i;
    }
    if !FindsRecord(n, len, hex, sent, start, i) { assert NoRecord(n, len, hex, sent, recopy, start, i); }
  }

  lemma SentStart(n: nat, len: nat, hex: bool, sent: nat)
    ensures SentAt(n, len, hex, sent, 0) == sent
  {
  }

  class ExecveLog {
    var records: seq<seq<Item>>
    var sent: nat

    /** `sent` is the counted size of the record being written. */
    ghost predicate Valid() reads this {
      records != [] && sent == Size(records[|records| - 1]) && forall k :: 0 <= k < |records| ==> Bounded(records[k])
    }

    constructor ()
      ensures Valid() && records == [[]] && sent == 0
    {
      records, sent := [[]], 0;
    }

    method Log(x: Item)
      requires records != []
      modifies `records
      ensures records == Grown(old(records), [x])
    {
      records := records[|records| - 1 := records[|records| - 1] + [x]];
    }

    /**
     * The first walk over an argument: whether any byte needs hexadecimal. The buffer keeps the last
     * chunk read; copy(k) says whether the k-th read from user memory succeeds.
     */
    method Scan(arg: seq<Byte>, copy: nat -> bool) returns (ok: bool, hex: bool, buf: seq<Byte>)
      ensures ok ==> (hex <==> !AllPlain(arg)) && (|arg| <= MAX_EXECVE_AUDIT_LEN ==> buf == arg)
      ensures ok <==> forall k :: ReadBy(arg, k) ==> copy(k)
    {
      hide AllPlain, Offset, ReadBy;
      var off, left, chunk := 0, |arg|, 0;
      hex, buf := false, [];
      ScanStart(arg);
      while true
        invariant 0 <= off <= |arg| && left == |arg| - off && off == Offset(false, chunk) && !hex
        invariant ReadBy(arg, chunk) && AllPlain(arg[..off]) && (|arg| <= MAX_EXECVE_AUDIT_LEN ==> off == 0)
        invariant chunk > 0 ==> left > 0
        invariant forall k :: 0 <= k < chunk ==> copy(k)
        decreases left
      {
        var toSend := if left > MAX_EXECVE_AUDIT_LEN then MAX_EXECVE_AUDIT_LEN else left;
        if !copy(chunk) { return false, false, []; }
        buf := arg[off..off + toSend];
        hex := ContainsControl(buf);
        ScanStep(arg, off, toSend, chunk);
        if hex {
          ReadUpTo(arg, chunk, copy);
          return true, true, buf;
        }
        left, off, chunk := left - toSend, off + toSend, chunk + 1;
        if left == 0 {
          ReadUpTo(arg, chunk - 1, copy);
          assert arg[..off] == arg;
          return true, false, buf;
        }
      }
    }

    /** A new record if the next `need` bytes do not fit; `start` says whether there is one to be had. */
    method MakeRoom(need: nat, start: bool) returns (ok: bool)
      requires Valid()
      modifies this
      ensures ok ==> Valid() && Flat(records) == Flat(old(records)) && (sent + need <= MAX_EXECVE_AUDIT_LEN || sent == 0)
      ensures ok <==> start || old(sent) + need <= MAX_EXECVE_AUDIT_LEN
      ensures !ok ==> records == old(records)
      ensures old(sent) + need <= MAX_EXECVE_AUDIT_LEN ==> records == old(records) && sent == old(sent)
      ensures old(sent) + need > MAX_EXECVE_AUDIT_LEN && start ==> records == old(records) + [[]] && sent == 0
    {
      var roomLeft := MAX_EXECVE_AUDIT_LEN - sent - need;
      if roomLeft < 0 {
        sent := 0;
        if !start { return false; }
        OpenIs(records);
        records := records + [[]];
      }
      return true;
    }

    /**
     * One piece of an argument: after a new record if it needs one and after the length if it is the first of
     * several; `readable` says whether its bytes could be read then.
     */
    method LogPiece(n: nat, arg: seq<Byte>, off: nat, i: nat, hex: bool, tooLong: bool, frag: seq<Byte>, start: bool, readable: bool)
      returns (r: Outcome)
      requires Valid() && n < 0x8000_0000 && 0 < |frag| <= PieceLen(hex) && (hex || AllPlain(frag))
      requires off + |frag| <= |arg| && frag == arg[off..off + |frag|]
      modifies this
      ensures r.Done? ==> Valid() && sent <= MAX_EXECVE_AUDIT_LEN + NumLen(n)
      ensures r.Done? ==> Flat(records) == Flat(old(records)) + Next(n, arg, off, i, hex, tooLong, |frag|)
      ensures r.Stopped? ==> records == old(records) && !start
      ensures r.Killed? ==> Flat(records) == Flat(old(records)) + Head(n, arg, i, hex, tooLong) && !readable
      ensures var room := HasRoom(n, |frag|, hex, old(sent));
              && (r.Stopped? <==> !room && !start) && (r.Killed? <==> (room || start) && !readable)
              && (r.Done? ==> r.consumed == |frag| && sent == (if room then old(sent) else 0) + Cost(n, |frag|, hex))
              && (r.Done? ==> records == Grown(if room then old(records) else old(records) + [[]],
                                               Next(n, arg, off, i, hex, tooLong, |frag|)))
    {
      hide Encoded, NumLen, Flat, Size, Counted, Hex, CString, Quoted, Bounded, AllPlain;
      ghost var before := Flat(records);
      PieceCost(n, if tooLong then Some(i) else None, frag, hex);
      LengthCost(n, if hex then 2 * |arg| else |arg|);
      var numLen := NumLen(n);
      var cost := numLen + if hex then |frag| * 2 else |frag|;
      var ok := MakeRoom(cost, start);
      if !ok { return Stopped; }
      ghost var at, piece := records, Piece(n, if tooLong then Some(i) else None, Encoded(frag, hex));
      GrownTwice(at, Head(n, arg, i, hex, tooLong), [piece]);
      hide Grown;
      if i == 0 && tooLong { AddItem(Length(n, if hex then 2 * |arg| else |arg|)); }
      if !readable { return Killed; }
      AddItem(Piece(n, if tooLong then Some(i) else None, if hex then Hex(frag) else Quoted(CString(frag + [0]))));
      AssocItems(before, Head(n, arg, i, hex, tooLong), [piece]);
      return Done(|frag|);
    }

    method AddItem(x: Item)
      requires Valid() && sent + Counted(x) <= MAX_EXECVE_AUDIT_LEN + 15
      modifies this
      ensures Valid() && Flat(records) == Flat(old(records)) + [x] && sent == old(sent) + Counted(x)
      ensures records == Grown(old(records), [x])
    {
      hide Flat, Size, Counted, Grown;
      AddFlat(records, x);
      AddValid(records, x, sent);
      Log(x);
      sent := sent + Counted(x);
    }

    /**
     * audit_log_single_execve_arg. copy(k) and recopy(k) say whether reads from user memory succeed, start(k)
     * whether a new record is to be had for piece k.
     */
    method LogArgument(n: nat, arg: seq<Byte>, copy: nat -> bool, recopy: nat -> bool, start: nat -> bool) returns (r: Outcome)
      requires Valid() && n < 0x8000_0000
      modifies this
      ensures r.Done? ==> Valid() && r.consumed == |arg| + 1 && Flat(records) == Flat(old(records)) + Expected(n, arg)
      ensures r.Done? ==> sent <= MAX_EXECVE_AUDIT_LEN + NumLen(n) || sent == old(sent)
      ensures !r.Done? ==> Flat(old(records)) <= Flat(records) <= Flat(old(records)) + Expected(n, arg)
      ensures r.Done? <==> AllGoesOut(n, arg, old(sent), copy, recopy, start)
      ensures r.Stopped? <==> Scanned(arg, copy) && RunsOut(n, |arg|, !AllPlain(arg), old(sent), recopy, start)
      ensures r.Done? ==> sent == SentAfter(n, arg, old(sent))
    {
      hide Flat, NumLen, Bounded, Size, Rest, Next, Expected, AllPlain, ReadBy, Offset, SentAt, StretchLen, HasRoom, Cost, At,
        PiecesGoOut, FindsRecord, RunsOut, NumPieces, Grown, Head;
      ghost var before, sent0 := Flat(records), sent;
      PrefixOf(before, Expected(n, arg));
      if |arg| > MAX_ARG_STRLEN - 1 { return Killed; }
      var ok, hex, buf := Scan(arg, copy);
      if !ok { return Killed; }
      var max := PieceLen(hex);
      var tooLong := |arg| > max;
      var off, i := 0, 0;
      ghost var done: seq<Item> := [];
      RestAll(n, arg, hex, tooLong);
      AtStart(|arg|, hex);
      SentStart(n, |arg|, hex, sent);
      while off < |arg|
        invariant 0 <= off <= |arg| && Valid() && Flat(records) == before + done && (i == 0 <==> off == 0)
        invariant done + Rest(n, arg, off, i, hex, tooLong) == Expected(n, arg)
        invariant sent <= MAX_EXECVE_AUDIT_LEN + NumLen(n) || sent == old(sent)
        invariant |arg| < max ==> buf == arg && (off == 0 || off == |arg|)
        invariant At(|arg|, hex, off, i) && sent == SentAt(n, |arg|, hex, sent0, i)
        invariant FirstGoOut(n, |arg|, hex, sent0, recopy, start, i)
      {
        PrefixStep(before, done, Rest(n, arg, off, i, hex, tooLong), Expected(n, arg));
        PrefixHead(before, done, n, arg, off, i, hex, tooLong);
        var toSend := if |arg| - off > max then max else |arg| - off;
        var readable := |arg| < max || recopy(i);
        if |arg| >= max { buf := arg[off..off + toSend]; }
        RestStep(n, arg, off, i, hex, tooLong, toSend);
        PlainPart(arg, off, toSend);
        AtNext(n, |arg|, hex, sent0, start, off, i, toSend);
        assert buf[..toSend] == arg[off..off + toSend];
        r := LogPiece(n, arg, off, i, hex, tooLong, buf[..toSend], start(i), readable);
        if !r.Done? {
          AtStop(n, |arg|, hex, sent0, recopy, start, off, i);
          return;
        }
        ghost var next := Next(n, arg, off, i, hex, tooLong, toSend);
        Shift(before, done, next, Rest(n, arg, off + toSend, i + 1, hex, tooLong));
        done := done + next;
        off, i := off + toSend, i + 1;
      }
      RestNone(n, arg, i, hex, tooLong);
      AtEnd(n, arg, hex, sent0, recopy, start, i);
      return Done(|arg| + 1);
    }

    /**
     * audit_log_execve_info: every argument in turn, until one is not logged in full. copy(n), recopy(n) and
     * start(n) are what argument n meets.
     */
    method LogExecve(args: seq<seq<Byte>>, copy: nat -> nat -> bool, recopy: nat -> nat -> bool, start: nat -> nat -> bool)
      returns (ok: bool)
      requires Valid() && Flat(records) == [] && |args| < 0x8000_0000
      modifies this
      ensures ok ==> Valid() && Flat(records) == AllExpected(args)
      ensures !ok ==> Flat(records) <= AllExpected(args)
      ensures ok <==> forall i :: 0 <= i < |args| ==>
                AllGoesOut(i, args[i], SentBefore(args, i), copy(i), recopy(i), start(i))
    {
      NothingSent(records);
      hide Flat, Size, Expected, AllExpected, Bounded, AllGoesOut, SentAfter, RunsOut, Scanned;
      NoneExpected(args);
      var i := 0;
      while i < |args|
        invariant i <= |args| && Valid() && Flat(records) == AllExpected(args[..i]) && sent == SentBefore(args, i)
        invariant forall j :: 0 <= j < i ==> AllGoesOut(j, args[j], SentBefore(args, j), copy(j), recopy(j), start(j))
      {
        ExpectedPlus(args, i);
        var r := LogArgument(i, args[i], copy(i), recopy(i), start(i));
        if !r.Done? {
          ExpectedGrows(args, i + 1);
          return false;
        }
        i := i + 1;
      }
      assert args[..|args|] == args;
      return true;
    }
  }

  lemma NothingSent(records: seq<seq<Item>>)
    requires records != [] && Flat(records) == []
    ensures Size(records[|records| - 1]) == 0
  {
  }
}
