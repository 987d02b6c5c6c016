/** The parser that extracts the routing key of an encoded command (src/command.c), against a
    specification on the argument vector. The looked-up command description is a parameter. */
module RoutingKey {
  import opened Bytes
  import opened Decimal
  import opened Command
  import opened Walkers

  /** How a command's first key is found. */
  datatype KeyMethod = NoKeys | Keyword | Index | KeyNum

  /** The commands whose keys need more than their description. */
  datatype CmdType = Migrate | Xread | Xreadgroup | Other

  datatype CmdDef = CmdDef(cmdType: CmdType, arity: int, keyMethod: KeyMethod, firstKeyPos: int)

  datatype Parsed = Key(key: seq<Byte>) | Keyless | Error

  /** strncmp("0", arg, |arg|) == 0. */
  predicate CountsZero(arg: seq<Byte>) {
    arg == [] || (arg[0] == ZERO && (|arg| == 1 || arg[1] == 0))
  }

  const STREAMS: seq<Byte> := [83, 84, 82, 69, 65, 77, 83]

  function Upper(b: Byte): Byte {
    if 97 <= b <= 122 then b - 32 else b
  }

  /** strncasecmp("STREAMS", arg, |arg|) == 0: a part of the word from its start, or the word and a NUL byte. */
  predicate IsKeyword(arg: seq<Byte>) {
    && (forall i :: 0 <= i < |arg| && i < 7 ==> Upper(arg[i]) == STREAMS[i])
    && (|arg| > 7 ==> arg[7] == 0)
  }

  /** The argument after the first keyword among arguments j.. */
  function KeyAfterKeyword(argv: seq<seq<Byte>>, j: nat): Parsed
    decreases |argv| - j
  {
    if j >= |argv| then Error
    else if !IsKeyword(argv[j]) then KeyAfterKeyword(argv, j + 1)
    else if j + 1 >= |argv| then Error
    else Key(argv[j + 1])
  }

  predicate ArityMet(argv: seq<seq<Byte>>, arity: int) {
    if arity >= 0 then |argv| == arity else |argv| >= -arity
  }

  function FirstPos(info: CmdDef): nat {
    if info.firstKeyPos > 1 then info.firstKeyPos else 1
  }

  /** The routing key of a command, by argument position. */
  function KeyOf(argv: seq<seq<Byte>>, lookup: Option<CmdDef>): Parsed {
    if |argv| == 0 || lookup.None? || !ArityMet(argv, lookup.value.arity) then Error
    else
      var info := lookup.value;
      var k := FirstPos(info);
      if info.keyMethod.NoKeys? then Keyless
      else if info.keyMethod.Keyword? then
        if info.cmdType.Xread? then KeyAfterKeyword(argv, 2)
        else if info.cmdType.Xreadgroup? then KeyAfterKeyword(argv, 5)
        else Error
      else if k >= |argv| then Error
      else if info.keyMethod.KeyNum? then
        if CountsZero(argv[k]) then Keyless else if k + 1 >= |argv| then Error else Key(argv[k + 1])
      else if info.cmdType.Migrate? && argv[k] == [] && info.firstKeyPos == 3 then Error
      else Key(argv[k])
  }

  /** `strncmp` of the C string "0" with the first n bytes of s, for equality. */
  method StrncmpZero(s: seq<Byte>) returns (equal: bool)
    ensures equal == CountsZero(s)
  {
    var zero: seq<Byte> := [ZERO, 0];
    var i := 0;
    while i < |s|
      invariant 0 <= i <= |s| && i <= 1
      invariant i == 1 ==> s[0] == ZERO
    {
      if s[i] != zero[i] {
        return false;
      }
      if zero[i] == 0 {
        return true;
      }
      i := i + 1;
    }
    equal := true;
  }

  /** `strncasecmp` of the C string "STREAMS" with the first n bytes of s, for equality. */
  method StrncasecmpStreams(s: seq<Byte>) returns (equal: bool)
    ensures equal == IsKeyword(s)
  {
    var word := STREAMS + [0];
    var i := 0;
    while i < |s|
      invariant 0 <= i <= |s| && i <= 7
      invariant forall j :: 0 <= j < i ==> Upper(s[j]) == STREAMS[j]
    {
      if Upper(s[i]) != word[i] {
        return false;
      }
      if word[i] == 0 {
        return true;
      }
      i := i + 1;
    }
    equal := true;
  }

  /** Unsigned 32-bit wrap-around. */
  function Low32(x: nat): (r: nat)
    ensures r < TWO32 && (x < TWO32 ==> r == x)
  {
    x % 0x1_0000_0000
  }

  predicate CrlfFrom(s: seq<Byte>, p: nat) {
    p + 1 < |s| && s[p] == CR && s[p + 1] == LF
  }

  /** Length, CRLF, that many bytes (counted in 32 bits), CRLF: the text and all it takes. */
  function TextAt(s: seq<Byte>): (r: Option<(seq<Byte>, nat)>)
    ensures r.Some? ==> r.value.1 <= |s|
  {
    var d := DigitRun(s, 0);
    var len, start := Low32(Value(s[..d])), d + 2;
    if !CrlfFrom(s, d) || !CrlfFrom(s, start + len) then None
    else Some((s[start..start + len], start + len + 2))
  }

  /** A bulk string at the start of s, and the bytes it takes. */
  function BulkAt(s: seq<Byte>): (r: Option<(seq<Byte>, nat)>)
    ensures r.Some? ==> r.value.1 <= |s|
  {
    if s == [] || s[0] != DOLLAR then None
    else
      var t := TextAt(s[1..]);
      if t.None? then None else Some((t.value.0, t.value.1 + 1))
  }

  /** The digit loop shared by the two length fields, with 32-bit wrap-around. */
  method Digits32(s: seq<Byte>) returns (v: nat, p: nat)
    ensures p == DigitRun(s, 0) && v == Low32(Value(s[..p]))
  {
    v, p := 0, 0;
    while p < |s| && ZERO <= s[p] <= ZERO + 9
      invariant p <= |s| && AllDigits(s[..p]) && v == Low32(Value(s[..p]))
    {
      NextDigit(s, 0, p);
      Wrap(Value(s[..p]), s[p] - ZERO);
      v := Low32(v * 10 + (s[p] - ZERO));
      p := p + 1;
    }
    DigitRunUnique(s, p);
  }

  lemma Wrap(a: nat, d: nat)
    ensures Low32(Low32(a) * 10 + d) == Low32(a * 10 + d)
  {
    assert a * 10 + d == Low32(a) * 10 + d + 0x1_0000_0000 * (a / 0x1_0000_0000 * 10);
  }

  /** `valkey_parse_bulk` on the rest of a command. */
  method ParseBulk(s: seq<Byte>) returns (r: Option<(seq<Byte>, nat)>)
    ensures r == BulkAt(s)
  {
    if |s| == 0 || s[0] != DOLLAR {
      return None;
    }
    var length, d := Digits32(s[1..]);
    var p := d + 1;
    if p >= |s| || s[p] != CR {
      return None;
    }
    p := p + 1;
    if p >= |s| || s[p] != LF {
      return None;
    }
    p := p + 1;
    var str := p;
    p := p + length;
    if p >= |s| || s[p] != CR {
      return None;
    }
    p := p + 1;
    if p >= |s| || s[p] != LF {
      return None;
    }
    TailSlice(s, str, str + length);
    r := Some((s[str..str + length], p + 1));
  }

  lemma TailSlice(s: seq<Byte>, i: nat, j: nat)
    requires 1 <= i <= j <= |s|
    ensures s[1..][i - 1..j - 1] == s[i..j]
  {
  }

  lemma TextAtText(arg: seq<Byte>, rest: seq<Byte>)
    requires |arg| < TWO32
    ensures TextAt(NatText(|arg|) + (CRLF + arg + CRLF + rest)) == Some((arg, |NatText(|arg|)| + |arg| + 4))
  {
    hide NatText, Value, DigitRun, AllDigits, TextAt, Low32, CrlfFrom;
    var d, tail := NatText(|arg|), CRLF + arg + CRLF + rest;
    NatTextRun(|arg|, tail);
    assert tail[2..2 + |arg|] == arg && tail[|arg| + 2..|arg| + 4] == CRLF && tail[0..2] == CRLF;
    Suffix(d, tail, 2, 2 + |arg|);
    CrlfSuffix(d, tail, 0);
    CrlfSuffix(d, tail, |arg| + 2);
    assert |d + tail| >= |d| + |arg| + 4;
    TextAtKnown(d + tail, |d|, |arg|);
  }

  lemma TextAtKnown(s: seq<Byte>, d: nat, len: nat)
    requires DigitRun(s, 0) == d && Value(s[..d]) == len < TWO32 && d + len + 4 <= |s|
    requires CrlfFrom(s, d) && CrlfFrom(s, d + 2 + len)
    ensures TextAt(s) == Some((s[d + 2..d + 2 + len], d + len + 4))
  {
    hide DigitRun, Value, CrlfFrom;
  }

  lemma Suffix<T>(u: seq<T>, w: seq<T>, i: nat, j: nat)
    requires i <= j <= |w|
    ensures (u + w)[|u| + i..|u| + j] == w[i..j]
  {
  }

  lemma CrlfSuffix(u: seq<Byte>, w: seq<Byte>, k: nat)
    requires k + 2 <= |w| && w[k..k + 2] == CRLF
    ensures CrlfFrom(u + w, |u| + k)
  {
    assert w[k] == w[k..k + 2][0] && w[k + 1] == w[k..k + 2][1];
  }

  lemma BulkAtBulk(arg: seq<Byte>, rest: seq<Byte>)
    requires |arg| < TWO32
    ensures BulkAt(Bulk(arg) + rest) == Some((arg, |Bulk(arg)|))
  {
    hide NatText, TextAt, AllDigits;
    TextAtText(arg, rest);
    assert (Bulk(arg) + rest)[1..] == NatText(|arg|) + (CRLF + arg + CRLF + rest);
  }

  /** Arguments longer than 32 bits count, or more than an int of them, are out of scope. */
  predicate Fits(argv: seq<seq<Byte>>) {
    |argv| < 0x8000_0000 && forall i :: 0 <= i < |argv| ==> |argv[i]| < TWO32
  }

  /** The rest of the command buffer holds the arguments from k on. */
  ghost predicate At(p: seq<Byte>, argv: seq<seq<Byte>>, k: nat) {
    k <= |argv| && p == BulksFrom(argv, k)
  }

  lemma NextBulk(p: seq<Byte>, argv: seq<seq<Byte>>, k: nat)
    requires At(p, argv, k) && Fits(argv)
    ensures BulkAt(p) == if k == |argv| then None else Some((argv[k], |Bulk(argv[k])|))
    ensures k < |argv| ==> At(p[|Bulk(argv[k])|..], argv, k + 1)
  {
    if k < |argv| {
      BulkAtBulk(argv[k], BulksFrom(argv, k + 1));
    }
  }

  /** The multi-bulk size field, and where the arguments start. */
  method ParseSize(cmd: seq<Byte>, ghost argv: seq<seq<Byte>>) returns (r: Option<(nat, nat)>)
    requires cmd != []
    ensures r.Some? ==> 0 < r.value.0 < TWO32 && r.value.1 <= |cmd|
    ensures cmd == Encode(argv) && Fits(argv) ==>
              if argv == [] then r == None
              else r.Some? && r.value.0 == |argv| && At(cmd[r.value.1..], argv, 0)
  {
    hide Fits, DigitRun, Value, At, NatText, Bulks;
    if cmd[0] != STAR {
      return None;
    }
    var rnarg, d := Digits32(cmd[1..]);
    if cmd == Encode(argv) && Fits(argv) {
      SizeOfHeader(argv);
    }
    var p := d + 1;
    if p == |cmd| || cmd[p] != CR {
      return None;
    }
    p := p + 1;
    if p == |cmd| || cmd[p] != LF {
      return None;
    }
    p := p + 1;
    if rnarg == 0 {
      return None;
    }
    r := Some((rnarg, p));
  }

  lemma {:induction false} SizeOfHeader(argv: seq<seq<Byte>>)
    requires Fits(argv)
    ensures var s, d := Encode(argv), |NatText(|argv|)|;
            && DigitRun(s[1..], 0) == d && Low32(Value(s[1..][..d])) == |argv|
            && CrlfFrom(s, d + 1) && At(s[d + 3..], argv, 0)
  {
    hide NatText, Value, DigitRun, Bulks, BulksFrom, CrlfFrom;
    var s, d, tail := Encode(argv), NatText(|argv|), CRLF + Bulks(argv);
    assert s[1..] == d + tail;
    NatTextRun(|argv|, tail);
    BulksSplit(argv, 0);
    NoBulks(argv);
    assert s == ([STAR] + d) + tail;
    Suffix([STAR] + d, tail, 2, |tail|);
    assert tail[0..2] == CRLF;
    CrlfSuffix([STAR] + d, tail, 0);
    assert tail[2..] == Bulks(argv);
  }

  /** `valkey_parse_cmd`: on an encoded command, the key is the one its position names. */
  method ParseCmd(cmd: seq<Byte>, lookup: Option<CmdDef>, ghost argv: seq<seq<Byte>>) returns (r: Parsed)
    requires cmd != []
    ensures cmd == Encode(argv) && Fits(argv) ==> r == KeyOf(argv, lookup)
    ensures cmd == Encode(argv) && Fits(argv) && lookup.Some? && lookup.value.keyMethod.Index? ==>
      var info := lookup.value;
      var p := if info.firstKeyPos >= 1 then info.firstKeyPos else 1;
      if |argv| == 0 || (info.arity >= 0 && |argv| != info.arity) || |argv| < -info.arity || p >= |argv| then r == Error
      else if info.cmdType.Migrate? && info.firstKeyPos == 3 && argv[p] == [] then r == Error
      else r == Key(argv[p])
  {
    ghost var ok := cmd == Encode(argv) && Fits(argv);
    var size := ParseSize(cmd, argv);
    if size.None? {
      return Error;
    }
    var rnarg, p := size.value.0, cmd[size.value.1..];
    var arg;
    arg, p := TakeArg(p, ok, argv, 0);
    if arg.None? {
      return Error;
    }
    if rnarg > 1 {
      arg, p := TakeArg(p, ok, argv, 1);
      if arg.None? {
        return Error;
      }
    }
    if lookup.None? {
      return Error;
    }
    var info := lookup.value;
    var narg := if rnarg < 0x8000_0000 then rnarg else rnarg - TWO32;
    if (info.arity >= 0 && narg != info.arity) || (info.arity < 0 && narg < -info.arity) {
      return Error;
    }
    if info.keyMethod.NoKeys? {
      return Keyless;
    }
    if rnarg <= 1 {
      return Error;
    }
    if info.keyMethod.Keyword? {
      if info.cmdType.Xread? {
        r := FindKeyword(p, 1, narg, ok, argv);
      } else if info.cmdType.Xreadgroup? {
        r := FindKeyword(p, 4, narg, ok, argv);
      } else {
        r := Error;
      }
      return;
    }
    r := FindKey(p, arg.value, info, ok, argv);
  }

  /** The keyword search, over the arguments after number `startfrom`. */
  method FindKeyword(start: seq<Byte>, startfrom: nat, narg: int, ghost ok: bool, ghost argv: seq<seq<Byte>>) returns (r: Parsed)
    requires startfrom >= 1
    requires ok ==> narg == |argv| > 1 && Fits(argv) && At(start, argv, 2)
    ensures ok ==> r == KeyAfterKeyword(argv, startfrom + 1)
  {
    var arg, p, argidx := None, start, 1;
    while argidx < narg - 1
      invariant argidx >= 1
      invariant ok ==> argidx < |argv| && At(p, argv, argidx + 1)
      invariant ok ==> KeyAfterKeyword(argv, startfrom + 1) == KeyAfterKeyword(argv, if argidx < startfrom then startfrom + 1 else argidx + 1)
    {
      arg, p := TakeArg(p, ok, argv, argidx + 1);
      if arg.None? {
        return Error;
      }
      argidx := argidx + 1;
      if argidx > startfrom {
        var found := StrncasecmpStreams(arg.value);
        if found {
          arg, p := TakeArg(p, ok, argv, argidx + 1);
          if arg.None? {
            return Error;
          }
          return Key(arg.value);
        }
      }
    }
    r := Error;
  }

  /** From the second argument on: the key, for a command that has one. */
  method FindKey(start: seq<Byte>, arg1: seq<Byte>, info: CmdDef, ghost ok: bool, ghost argv: seq<seq<Byte>>) returns (r: Parsed)
    requires !info.keyMethod.NoKeys? && !info.keyMethod.Keyword?
    requires ok ==> |argv| > 1 && ArityMet(argv, info.arity) && Fits(argv) && At(start, argv, 2) && arg1 == argv[1]
    ensures ok ==> r == KeyOf(argv, Some(info))
  {
    var arg, p, argidx := Some(arg1), start, 1;
    while argidx < info.firstKeyPos
      invariant 1 <= argidx <= FirstPos(info) && arg.Some?
      invariant ok ==> argidx < |argv| && At(p, argv, argidx + 1) && arg.value == argv[argidx]
    {
      arg, p := TakeArg(p, ok, argv, argidx + 1);
      if arg.None? {
        return Error;
      }
      argidx := argidx + 1;
    }
    if info.keyMethod.KeyNum? {
      var zero := StrncmpZero(arg.value);
      if zero {
        return Keyless;
      }
      arg, p := TakeArg(p, ok, argv, argidx + 1);
      if arg.None? {
        return Error;
      }
    }
    if info.cmdType.Migrate? && arg.value == [] && info.keyMethod.Index? && info.firstKeyPos == 3 {
      return Error;
    }
    r := Key(arg.value);
  }

  method TakeArg(p: seq<Byte>, ghost ok: bool, ghost argv: seq<seq<Byte>>, ghost k: nat)
    returns (arg: Option<seq<Byte>>, rest: seq<Byte>)
    requires ok ==> At(p, argv, k) && Fits(argv)
    ensures ok ==> arg == if k == |argv| then None else Some(argv[k])
    ensures ok && arg.Some? ==> At(rest, argv, k + 1)
  {
    if ok {
      NextBulk(p, argv, k);
    }
    var r := ParseBulk(p);
    if r.None? {
      return None, [];
    }
    arg, rest := Some(r.value.0), p[r.value.1..];
  }

  /**
   * A command with a key count in digits: the argument after it is the key
   * if the count is positive, and also if it is a zero written with more than one digit.
   */
  lemma KeyNumByCount(argv: seq<seq<Byte>>, info: CmdDef, n: nat)
    requires info.keyMethod.KeyNum? && ArityMet(argv, info.arity) && FirstPos(info) + 1 < |argv|
    requires var c := argv[FirstPos(info)]; c != [] && AllDigits(c) && Value(c) == n
    ensures var c, key := argv[FirstPos(info)], argv[FirstPos(info) + 1];
      KeyOf(argv, Some(info)) == if n > 0 || |c| > 1 then Key(key) else Keyless
  {
    var c := argv[FirstPos(info)];
    if |c| == 1 {
      assert c[..0] == [] && Value(c) == c[0] - ZERO;
    }
  }

  /** With the count in shortest decimal digits, there is a key exactly if the count is positive. */
  lemma KeyNumOfText(argv: seq<seq<Byte>>, info: CmdDef, n: nat)
    requires info.keyMethod.KeyNum? && ArityMet(argv, info.arity) && FirstPos(info) + 1 < |argv|
    requires argv[FirstPos(info)] == NatText(n)
    ensures KeyOf(argv, Some(info)) == if n > 0 then Key(argv[FirstPos(info) + 1]) else Keyless
  {
    ValueOfNatText(n);
    KeyNumByCount(argv, info, n);
  }

  /** A count that is no number: "0" and a NUL byte make EVAL keyless, whatever argument follows. */
  method NulCount(script: seq<Byte>, key: seq<Byte>) returns (r: Parsed)
    requires |script| < TWO32 && |key| < TWO32
    ensures r == Keyless
  {
    var argv := [[69, 86, 65, 76], script, [ZERO, 0], key];
    r := ParseCmd(Encode(argv), Some(CmdDef(Other, -3, KeyNum, 2)), argv);
  }

  /** The key is the argument after the first keyword among the arguments that are searched, if there is one. */
  lemma {:induction false} FirstKeyword(argv: seq<seq<Byte>>, from: nat, p: nat)
    requires from <= p <= |argv| && forall j :: from <= j < p ==> !IsKeyword(argv[j])
    requires p < |argv| ==> IsKeyword(argv[p])
    ensures KeyAfterKeyword(argv, from) == if p + 1 < |argv| then Key(argv[p + 1]) else Error
    decreases p - from
  {
    if from < p {
      FirstKeyword(argv, from + 1, p);
    }
  }

  /**
   * The search starts after argument 1 of XREAD and after argument 4 of XREADGROUP. With the
   * keyword at p, and no word like it before, the key is found if p is not one of these. If it is,
   * as it is without options, the search goes past it, and fails if no name or id looks like the keyword.
   */
  lemma KeywordAt(argv: seq<seq<Byte>>, group: bool, p: nat)
    requires var first := if group then 4 else 1;
      && first <= p && p + 1 < |argv| && IsKeyword(argv[p]) && (if group then |argv| >= 7 else |argv| >= 4)
      && forall j :: first <= j < p ==> !IsKeyword(argv[j])
    ensures var first, r := if group then 4 else 1, KeyOf(argv, Some(if group then CmdDef(Xreadgroup, -7, Keyword, 0) else CmdDef(Xread, -4, Keyword, 0)));
      && (p > first ==> r == Key(argv[p + 1]))
      && (p == first && (forall j :: p < j < |argv| ==> !IsKeyword(argv[j])) ==> r == Error)
  {
    var first := if group then 4 else 1;
    if p > first {
      FirstKeyword(argv, first + 1, p);
    } else if forall j :: p < j < |argv| ==> !IsKeyword(argv[j]) {
      FirstKeyword(argv, first + 1, |argv|);
    }
  }

  /** "XREAD STREAMS key id" is refused, or the id is taken for the key. */
  method PlainXread(key: seq<Byte>, id: seq<Byte>) returns (r: Parsed)
    requires |key| < TWO32 && |id| < TWO32
    ensures r == if IsKeyword(key) then Key(id) else Error
  {
    var argv := [[88, 82, 69, 65, 68], STREAMS, key, id];
    FirstKeyword(argv, 2, if IsKeyword(key) then 2 else if IsKeyword(id) then 3 else 4);
    r := ParseCmd(Encode(argv), Some(CmdDef(Xread, -4, Keyword, 0)), argv);
  }

  /** "XREAD BLOCK ms STREAMS key id" gives the key. */
  method BlockXread(ms: seq<Byte>, key: seq<Byte>, id: seq<Byte>) returns (r: Parsed)
    requires ms != [] && AllDigits(ms)
    requires |ms| < TWO32 && |key| < TWO32 && |id| < TWO32
    ensures r == Key(key)
  {
    var argv := [[88, 82, 69, 65, 68], [66, 76, 79, 67, 75], ms, [115, 116, 114, 101, 97, 109, 115], key, id];
    assert Upper(ms[0]) != STREAMS[0] && argv[2] == ms;
    assert IsKeyword(argv[3]);
    FirstKeyword(argv, 2, 3);
    r := ParseCmd(Encode(argv), Some(CmdDef(Xread, -4, Keyword, 0)), argv);
  }
}
