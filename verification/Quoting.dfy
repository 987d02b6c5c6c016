/** Quoting and splitting of command lines (src/sds.c): splitting what was quoted gives it back. */
module Quoting {
  import opened Bytes

  const QUOTE: Byte := 34
  const APOSTROPHE: Byte := 39
  const BACKSLASH: Byte := 92
  const SPACE: Byte := 32

  predicate IsPrint(b: Byte) {
    32 <= b <= 126
  }

  predicate IsSpace(b: Byte) {
    b == SPACE || 9 <= b <= 13
  }

  predicate IsHexDigit(b: Byte) {
    IsDigit(b) || 97 <= b <= 102 || 65 <= b <= 70
  }

  function HexDigit(n: nat): (b: Byte)
    requires n < 16
    ensures IsHexDigit(b) && HexDigitToInt(b) == n
  {
    if n < 10 then ZERO + n else 87 + n
  }

  function HexDigitToInt(b: Byte): (n: nat)
    ensures n < 16
  {
    if IsDigit(b) then b - ZERO
    else if 97 <= b <= 102 then b - 87
    else if 65 <= b <= 70 then b - 55
    else 0
  }

  /** The letter that names a control character after a backslash, if it has one. */
  function Letter(b: Byte): Option<Byte> {
    if b == 10 then Some(110)
    else if b == 13 then Some(114)
    else if b == 9 then Some(116)
    else if b == 7 then Some(97)
    else if b == 8 then Some(98)
    else None
  }

  function Unletter(b: Byte): Byte {
    if b == 110 then 10
    else if b == 114 then 13
    else if b == 116 then 9
    else if b == 98 then 8
    else if b == 97 then 7
    else b
  }

  function Escape(b: Byte): seq<Byte> {
    if b == BACKSLASH || b == QUOTE then [BACKSLASH, b]
    else if Letter(b).Some? then [BACKSLASH, Letter(b).value]
    else if IsPrint(b) then [b]
    else [BACKSLASH, 120, HexDigit(b / 16), HexDigit(b % 16)]
  }

  /** The escapes by their names in C; any other byte outside ASCII's printable ones takes two hexadecimal digits. */
  lemma EscapeNames(b: Byte)
    ensures Escape('\\' as int) == Ascii("\\\\") && Escape('"' as int) == Ascii("\\\"")
    ensures Escape('\n' as int) == Ascii("\\n") && Escape('\r' as int) == Ascii("\\r") && Escape('\t' as int) == Ascii("\\t")
    ensures Escape(7) == Ascii("\\a") && Escape(8) == Ascii("\\b")
    ensures ' ' as int <= b <= '~' as int && b != '"' as int && b != '\\' as int ==> Escape(b) == [b]
    ensures !(' ' as int <= b <= '~' as int) && b !in {7, 8, 9, 10, 13} ==>
      Escape(b) == Ascii("\\x") + [Ascii("0123456789abcdef")[b / 16], Ascii("0123456789abcdef")[b % 16]]
  {
    HexDigits(b / 16);
    HexDigits(b % 16);
  }

  lemma HexDigits(n: nat)
    requires n < 16
    ensures HexDigit(n) == Ascii("0123456789abcdef")[n]
  {
  }

  function EscapeFrom(s: seq<Byte>, i: nat): seq<Byte>
    requires i <= |s|
    decreases |s| - i
  {
    if i == |s| then [] else Escape(s[i]) + EscapeFrom(s, i + 1)
  }

  function Repr(s: seq<Byte>): seq<Byte> {
    [QUOTE] + EscapeFrom(s, 0) + [QUOTE]
  }

  /** `sdscatrepr`: append the quoted form of p to s. */
  method CatRepr(s: seq<Byte>, p: seq<Byte>) returns (r: seq<Byte>)
    ensures r == s + Repr(p)
  {
    hide EscapeFrom, HexDigit;
    r := s + [QUOTE];
    var i := 0;
    while i < |p|
      invariant 0 <= i <= |p| && r + EscapeFrom(p, i) == s + [QUOTE] + EscapeFrom(p, 0)
    {
      ghost var before := r;
      EscapeStep(p, i);
      if p[i] == BACKSLASH || p[i] == QUOTE {
        r := r + [BACKSLASH, p[i]];
      } else if Letter(p[i]).Some? {
        r := r + [BACKSLASH, Letter(p[i]).value];
      } else if IsPrint(p[i]) {
        r := r + [p[i]];
      } else {
        r := r + [BACKSLASH, 120, HexDigit(p[i] / 16), HexDigit(p[i] % 16)];
      }
      Regroup(before, Escape(p[i]), EscapeFrom(p, i + 1));
      i := i + 1;
    }
    EscapeEnd(p);
    Regroup(s, [QUOTE], EscapeFrom(p, 0));
    Regroup(s, [QUOTE] + EscapeFrom(p, 0), [QUOTE]);
    assert r + [] == r;
    r := r + [QUOTE];
  }

  lemma EscapeStep(s: seq<Byte>, i: nat)
    requires i < |s|
    ensures EscapeFrom(s, i) == Escape(s[i]) + EscapeFrom(s, i + 1)
  {
  }

  lemma EscapeEnd(s: seq<Byte>)
    ensures EscapeFrom(s, |s|) == []
  {
  }

  /** Arguments k.. quoted and joined by single spaces. */
  function JoinFrom(args: seq<seq<Byte>>, k: nat): seq<Byte>
    requires k <= |args|
    decreases |args| - k, 0
  {
    if k == |args| then [] else Repr(args[k]) + Tail(args, k + 1)
  }

  /** What follows argument k - 1. */
  function Tail(args: seq<seq<Byte>>, k: nat): seq<Byte>
    requires k <= |args|
    decreases |args| - k, 1
  {
    if k == |args| then [] else [SPACE] + JoinFrom(args, k)
  }

  /** The character at p of a C string; the terminator behind its end. */
  function At(line: seq<Byte>, p: nat): Byte {
    if p < |line| then line[p] else 0
  }

  /** Inside quotes the next bytes are a hexadecimal escape. */
  predicate HexEscape(line: seq<Byte>, p: nat) {
    At(line, p) == BACKSLASH && At(line, p + 1) == 120 && IsHexDigit(At(line, p + 2)) && IsHexDigit(At(line, p + 3))
  }

  /** One step inside double quotes, before the final advance: the byte it yields and the
      position of the last byte used; `None` at the closing quote or the end of the line. */
  method QuotedByte(line: seq<Byte>, p0: nat) returns (r: Option<(Byte, nat)>)
    requires p0 <= |line|
    ensures r.Some? ==> p0 <= r.value.1 < |line| && At(line, r.value.1) != 0
    ensures r.None? <==> At(line, p0) == QUOTE || At(line, p0) == 0
    ensures forall b: Byte, rest :: line[p0..] == Escape(b) + rest ==> r == Some((b, p0 + |Escape(b)| - 1))
  {
    var p := p0;
    ghost var s := line[p0..];
    assert forall i :: 0 <= i < |s| ==> At(line, p0 + i) == s[i];
    if HexEscape(line, p) {
      r := Some((HexDigitToInt(line[p + 2]) * 16 + HexDigitToInt(line[p + 3]), p + 3));
    } else if At(line, p) == BACKSLASH && At(line, p + 1) != 0 {
      r := Some((Unletter(line[p + 1]), p + 1));
    } else if At(line, p) == QUOTE || At(line, p) == 0 {
      r := None;
    } else {
      r := Some((line[p], p));
    }
    forall b: Byte, rest | s == Escape(b) + rest ensures r == Some((b, p0 + |Escape(b)| - 1)) {
      EscapeRead(line, p0, b, rest);
    }
  }

  lemma EscapeRead(line: seq<Byte>, p: nat, b: Byte, rest: seq<Byte>)
    requires p <= |line| && line[p..] == Escape(b) + rest
    ensures var e := Escape(b);
            && p + |e| <= |line| && e[0] != 0 && e[0] != QUOTE
            && (|e| == 1 ==> At(line, p) == b && b != BACKSLASH)
            && (|e| == 2 ==> At(line, p) == BACKSLASH && At(line, p + 1) != 120 && Unletter(At(line, p + 1)) == b && At(line, p + 1) != 0)
            && (|e| == 4 ==> HexEscape(line, p) && HexDigitToInt(line[p + 2]) * 16 + HexDigitToInt(line[p + 3]) == b)
            && (|e| == 1 || |e| == 2 || |e| == 4)
  {
    var e, s := Escape(b), line[p..];
    assert forall i :: 0 <= i < |e| ==> At(line, p + i) == s[i] == e[i];
    assert |e| == 4 ==> e[2] == At(line, p + 2) && e[3] == At(line, p + 3);
  }

  /** Inside the quotes, after the bytes `current` of arg. */
  ghost predicate Inside(rest: seq<Byte>, arg: seq<Byte>, tail: seq<Byte>, current: seq<Byte>) {
    |current| <= |arg| && current == arg[..|current|] && rest == EscapeFrom(arg, |current|) + ([QUOTE] + tail)
  }

  /** A closing quote must be followed by a space or nothing. */
  predicate EndsToken(line: seq<Byte>, p: nat) {
    At(line, p + 1) == 0 || IsSpace(At(line, p + 1))
  }

  /** One token, quoted or not: its text and the position behind it. */
  method Token(line: seq<Byte>, p0: nat, ghost arg: seq<Byte>, ghost tail: seq<Byte>) returns (r: Option<(seq<Byte>, nat)>)
    requires p0 < |line| && line[p0] != 0 && !IsSpace(line[p0])
    ensures r.Some? ==> p0 < r.value.1 <= |line|
    ensures line[p0..] == Repr(arg) + tail && (tail == [] || tail[0] == SPACE) ==>
              r.Some? && r.value.0 == arg && line[r.value.1..] == tail
  {
    hide Inside, EscapeFrom, Escape, Repr;
    ghost var ok := line[p0..] == Repr(arg) + tail && (tail == [] || tail[0] == SPACE);
    if ok {
      Entering(line, p0, arg, tail);
    }
    var current: seq<Byte> := [];
    var p, inq, insq, done := p0, false, false, false;
    while !done
      invariant p0 <= p <= |line| && (p == p0 ==> !done && !inq && !insq)
      invariant ok ==> if done then line[p..] == tail && current == arg
                       else if inq then Inside(line[p..], arg, tail, current)
                       else !insq && current == [] && p == p0
      decreases !done, |line| - p
    {
      if inq {
        current, p, done := InQuotes(line, p, current, ok, arg, tail);
        if !done && p == |line| {
          return None;
        }
      } else if insq {
        if At(line, p) == BACKSLASH && At(line, p + 1) == APOSTROPHE {
          p := p + 1;
          current := current + [APOSTROPHE];
        } else if At(line, p) == APOSTROPHE {
          if !EndsToken(line, p) {
            return None;
          }
          done := true;
        } else if At(line, p) == 0 {
          return None;
        } else {
          current := current + [line[p]];
        }
      } else if At(line, p) in [SPACE, 10, 13, 9, 0] {
        done := true;
      } else if At(line, p) == QUOTE {
        inq := true;
      } else if At(line, p) == APOSTROPHE {
        insq := true;
      } else {
        current := current + [line[p]];
      }
      if At(line, p) != 0 {
        p := p + 1;
      }
    }
    r := Some((current, p));
  }

  /** One step inside double quotes; the end of the line stands for an error. */
  method InQuotes(line: seq<Byte>, p0: nat, before: seq<Byte>, ghost ok: bool, ghost arg: seq<Byte>, ghost tail: seq<Byte>)
    returns (current: seq<Byte>, p: nat, done: bool)
    requires p0 <= |line|
    requires ok ==> (tail == [] || tail[0] == SPACE) && Inside(line[p0..], arg, tail, before)
    ensures p0 <= p <= |line| && (done ==> p < |line| && At(line, p) != 0)
    ensures !done && p < |line| ==> At(line, p) != 0
    ensures ok ==> p < |line|
                   && if done then line[p + 1..] == tail && current == arg else Inside(line[p + 1..], arg, tail, current)
  {
    hide EscapeFrom, Escape, HexEscape;
    if ok {
      if |before| == |arg| {
        EscapeEnd(arg);
        CloseStep(line, p0, tail);
      } else {
        ByteStep(line, p0, arg, |before|, tail);
      }
    }
    current, p, done := before, p0, false;
    var b := QuotedByte(line, p);
    if b.Some? {
      current, p := current + [b.value.0], b.value.1;
    } else if At(line, p) == QUOTE && EndsToken(line, p) {
      done := true;
    } else {
      p := |line|;
    }
  }

  /** `sdssplitargs`: split a line into its tokens; what was quoted and joined comes back. */
  method SplitArgs(line: seq<Byte>, ghost args: seq<seq<Byte>>) returns (r: Option<seq<seq<Byte>>>)
    ensures line == JoinFrom(args, 0) ==> r == Some(args)
  {
    hide EscapeFrom, Escape, Repr, JoinFrom, Tail, IsSpace;
    ghost var ok := line == JoinFrom(args, 0);
    var vector: seq<seq<Byte>> := [];
    var p := 0;
    assert line[0..] == line && args[..|args|] == args;
    while true
      invariant 0 <= p <= |line|
      invariant ok ==> |vector| <= |args| && vector == args[..|vector|]
      invariant ok ==> line[p..] == if vector == [] then JoinFrom(args, 0) else Tail(args, |vector|)
      decreases |line| - p
    {
      p := SkipBlanks(line, p, ok, args, |vector|);
      if At(line, p) == 0 {
        return Some(vector);
      }
      ghost var more := ok && |vector| < |args|;
      var token := Token(line, p, if more then args[|vector|] else [], if more then Tail(args, |vector| + 1) else []);
      if token.None? {
        return None;
      }
      if more {
        TakeMore(args, |vector|);
      }
      vector := vector + [token.value.0];
      p := token.value.1;
    }
  }

  lemma TakeMore<T>(s: seq<T>, k: nat)
    requires k < |s|
    ensures s[..k + 1] == s[..k] + [s[k]]
  {
  }

  method SkipBlanks(line: seq<Byte>, p0: nat, ghost ok: bool, ghost args: seq<seq<Byte>>, ghost k: nat) returns (p: nat)
    requires p0 <= |line|
    requires ok ==> k <= |args| && line[p0..] == if k == 0 then JoinFrom(args, 0) else Tail(args, k)
    ensures p0 <= p <= |line| && !IsSpace(At(line, p))
    ensures ok && k == |args| ==> At(line, p) == 0
    ensures ok && k < |args| ==> At(line, p) != 0 && line[p..] == Repr(args[k]) + Tail(args, k + 1)
                                 && (Tail(args, k + 1) == [] || Tail(args, k + 1)[0] == SPACE)
  {
    if ok && k < |args| {
      StartsWithQuote(args, k);
      if k > 0 {
        DropMore(line, p0, [SPACE], JoinFrom(args, k));
        OpenStep(line, p0 + 1, args[k], Tail(args, k + 1));
      } else {
        OpenStep(line, p0, args[k], Tail(args, k + 1));
      }
    }
    p := p0;
    while At(line, p) != 0 && IsSpace(At(line, p))
      invariant p0 <= p <= |line|
      invariant ok && k < |args| ==> p <= if k > 0 then p0 + 1 else p0
      decreases |line| - p
    {
      p := p + 1;
    }
  }

  lemma StartsWithQuote(args: seq<seq<Byte>>, k: nat)
    requires k < |args|
    ensures JoinFrom(args, k) != [] && JoinFrom(args, k)[0] == QUOTE && JoinFrom(args, k) == Repr(args[k]) + Tail(args, k + 1)
    ensures Tail(args, k + 1) == [] || Tail(args, k + 1)[0] == SPACE
  {
  }

  lemma DropMore(line: seq<Byte>, p: nat, e: seq<Byte>, after: seq<Byte>)
    requires p <= |line| && line[p..] == e + after
    ensures p + |e| <= |line| && line[p + |e|..] == after
    ensures e != [] ==> At(line, p) == e[0]
  {
    assert line[p + |e|..] == line[p..][|e|..];
  }

  lemma OpenStep(line: seq<Byte>, p: nat, arg: seq<Byte>, tail: seq<Byte>)
    requires p <= |line| && line[p..] == Repr(arg) + tail
    ensures p < |line| && At(line, p) == QUOTE && line[p + 1..] == EscapeFrom(arg, 0) + ([QUOTE] + tail)
  {
    assert line[p..] == [QUOTE] + (EscapeFrom(arg, 0) + ([QUOTE] + tail));
    DropMore(line, p, [QUOTE], EscapeFrom(arg, 0) + ([QUOTE] + tail));
  }

  lemma Entering(line: seq<Byte>, p: nat, arg: seq<Byte>, tail: seq<Byte>)
    requires p <= |line| && line[p..] == Repr(arg) + tail
    ensures p < |line| && At(line, p) == QUOTE && Inside(line[p + 1..], arg, tail, [])
  {
    OpenStep(line, p, arg, tail);
  }

  lemma CloseStep(line: seq<Byte>, p: nat, tail: seq<Byte>)
    requires p <= |line| && line[p..] == [] + ([QUOTE] + tail) && (tail == [] || tail[0] == SPACE)
    ensures p < |line| && At(line, p) == QUOTE && line[p + 1..] == tail
    ensures At(line, p + 1) == if tail == [] then 0 else SPACE
  {
    assert line[p..] == [QUOTE] + tail;
    DropMore(line, p, [QUOTE], tail);
    assert tail != [] ==> tail[0] == line[p + 1..][0];
  }

  lemma ByteStep(line: seq<Byte>, p: nat, arg: seq<Byte>, k: nat, tail: seq<Byte>)
    requires p <= |line| && k < |arg| && line[p..] == EscapeFrom(arg, k) + ([QUOTE] + tail)
    ensures var e, after := Escape(arg[k]), EscapeFrom(arg, k + 1) + ([QUOTE] + tail);
            line[p..] == e + after && p + |e| <= |line| && line[p + |e|..] == after && At(line, p) != QUOTE && At(line, p) != 0
  {
    var e, after := Escape(arg[k]), EscapeFrom(arg, k + 1) + ([QUOTE] + tail);
    Regroup(e, EscapeFrom(arg, k + 1), [QUOTE] + tail);
    DropMore(line, p, e, after);
    EscapeRead(line, p, arg[k], after);
  }
}
