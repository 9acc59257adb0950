/** Repairing the JSON arguments of a tool call: raw control characters inside
    strings, which section 7 of RFC 8259 forbids, are escaped. */
module Arguments {
  import opened Events

  type Byte = x: int | 0 <= x < 256

  type Text = seq<Byte>

  const QUOTE: Byte := 0x22
  const BACKSLASH: Byte := 0x5c
  const SPACE: Byte := 0x20

  /** Where the scanner is: outside strings, inside one, or inside one just
      after a backslash. */
  datatype Mode = Outside | Inside | Escaped

  function NextMode(m: Mode, c: Byte): Mode {
    match m
    case Outside => if c == QUOTE then Inside else Outside
    case Escaped => Inside
    case Inside => if c == BACKSLASH then Escaped else if c == QUOTE then Outside else Inside
  }

  /** A byte that must be escaped where it is. */
  predicate Forbidden(m: Mode, c: Byte) {
    m == Inside && c < SPACE
  }

  function HexDigit(v: int): (c: Byte)
    requires 0 <= v < 16
  {
    if v < 10 then 0x30 + v else 0x61 + (v - 10)
  }

  function EscapeControl(c: Byte): Text {
    if c == 0x09 then [BACKSLASH, 0x74]
    else if c == 0x0a then [BACKSLASH, 0x6e]
    else if c == 0x0d then [BACKSLASH, 0x72]
    else if c == 0x08 then [BACKSLASH, 0x62]
    else if c == 0x0c then [BACKSLASH, 0x66]
    else [BACKSLASH, 0x75, 0x30, 0x30, HexDigit(c / 16), HexDigit(c % 16)]
  }

  function Escape(m: Mode, c: Byte): Text {
    if Forbidden(m, c) then EscapeControl(c) else [c]
  }

  function Rewritten(m: Mode, s: Text): Text
    decreases |s|
  {
    if s == [] then []
    else Escape(m, s[0]) + Rewritten(NextMode(m, s[0]), s[1..])
  }

  /** Where the scanner is after s. */
  function ModeAfter(m: Mode, s: Text): Mode
    decreases |s|
  {
    if s == [] then m else ModeAfter(NextMode(m, s[0]), s[1..])
  }

  // ---- The code ----

  /** valid is the JSON library's judgement. */
  method RepairArguments(args: Text, valid: Text -> bool) returns (repaired: Text, ok: bool)
    ensures repaired == if valid(args) then args else Rewritten(Outside, args)
    ensures ok == valid(repaired)
  {
    if valid(args) {
      return args, true;
    }
    repaired := [];
    var inString, escaped := false, false;
    var i := 0;
    while i < |args|
      invariant 0 <= i <= |args| && (escaped ==> inString)
      invariant repaired == Rewritten(Outside, args[..i]) && ModeOf(inString, escaped) == ModeAfter(Outside, args[..i])
    {
      var c := args[i];
      assert args[..i + 1] == args[..i] + [c];
      OneMore(Outside, args[..i], c);
      i := i + 1;
      if !inString {
        if c == QUOTE {
          inString := true;
        }
      } else if escaped {
        escaped := false;
      } else if c == BACKSLASH {
        escaped := true;
      } else if c == QUOTE {
        inString := false;
      } else if c < SPACE {
        repaired := repaired + EscapeControl(c);
        continue;
      }
      repaired := repaired + [c];
    }
    assert args[..i] == args;
    ok := valid(repaired);
  }

  lemma OneMore(m: Mode, s: Text, c: Byte)
    ensures Rewritten(m, s + [c]) == Rewritten(m, s) + Escape(ModeAfter(m, s), c)
    ensures ModeAfter(m, s + [c]) == NextMode(ModeAfter(m, s), c)
  {
    RewriteConcat(m, s, [c]);
    ModeConcat(m, s, [c]);
    assert [c][1..] == [];
  }

  function ModeOf(inString: bool, escaped: bool): Mode {
    if !inString then Outside else if escaped then Escaped else Inside
  }

  // ---- What strings mean ----

  /** A text read leniently: bytes outside strings as they are, and the
      characters of strings, whether written raw or escaped. An escape JSON
      does not have keeps its byte. */
  datatype Token = Plain(byte: Byte) | Char(code: int) | BadEscape(byte: Byte) | CutOff

  function HexValue(c: Byte): (v: int)
    ensures -1 <= v < 16
  {
    if 0x30 <= c <= 0x39 then c - 0x30
    else if 0x61 <= c <= 0x66 then c - 0x61 + 10
    else if 0x41 <= c <= 0x46 then c - 0x41 + 10
    else -1
  }

  /** The code of four hexadecimal digits, if s starts with them. */
  function FourHex(s: Text): Option<int> {
    if |s| < 4 || HexValue(s[0]) < 0 || HexValue(s[1]) < 0 || HexValue(s[2]) < 0 || HexValue(s[3]) < 0 then None
    else Some(HexValue(s[0]) * 4096 + HexValue(s[1]) * 256 + HexValue(s[2]) * 16 + HexValue(s[3]))
  }

  /** The character of a two-byte escape, if it is one. */
  function ShortEscape(c: Byte): Option<int> {
    if c == QUOTE || c == BACKSLASH || c == 0x2f then Some(c)
    else if c == 0x62 then Some(0x08)
    else if c == 0x66 then Some(0x0c)
    else if c == 0x6e then Some(0x0a)
    else if c == 0x72 then Some(0x0d)
    else if c == 0x74 then Some(0x09)
    else None
  }

  function Decoded(inString: bool, s: Text): seq<Token>
    decreases |s|
  {
    if s == [] then []
    else if !inString then [Plain(s[0])] + Decoded(s[0] == QUOTE, s[1..])
    else if s[0] == QUOTE then [Plain(s[0])] + Decoded(false, s[1..])
    else if s[0] != BACKSLASH then [Char(s[0])] + Decoded(true, s[1..])
    else if |s| == 1 then [CutOff]
    else if ShortEscape(s[1]).Some? then [Char(ShortEscape(s[1]).value)] + Decoded(true, s[2..])
    else if s[1] == 0x75 && FourHex(s[2..]).Some? then [Char(FourHex(s[2..]).value)] + Decoded(true, s[6..])
    else [BadEscape(s[1])] + Decoded(true, s[2..])
  }

  lemma HexReadsBack(v: int)
    requires 0 <= v < 16
    ensures HexValue(HexDigit(v)) == v
  {
  }

  /** An escape decodes to the byte it stands for, whatever follows. */
  lemma EscapeDecodes(c: Byte, rest: Text)
    requires c < SPACE
    ensures Decoded(true, EscapeControl(c) + rest) == [Char(c)] + Decoded(true, rest)
  {
    var e := EscapeControl(c);
    var s := e + rest;
    if |e| == 2 {
      assert s[2..] == rest;
    } else {
      HexReadsBack(c / 16);
      HexReadsBack(c % 16);
      assert s[2..][..4] == [0x30, 0x30, HexDigit(c / 16), HexDigit(c % 16)];
      assert FourHex(s[2..]) == Some(c);
      assert s[6..] == rest;
    }
  }

  // ---- The two scanners stay in step ----

  lemma {:induction false} RewriteConcat(m: Mode, s: Text, t: Text)
    ensures Rewritten(m, s + t) == Rewritten(m, s) + Rewritten(ModeAfter(m, s), t)
    decreases |s|
  {
    if s == [] {
      assert s + t == t;
    } else {
      assert (s + t)[1..] == s[1..] + t;
      RewriteConcat(NextMode(m, s[0]), s[1..], t);
    }
  }

  lemma {:induction false} ModeConcat(m: Mode, s: Text, t: Text)
    ensures ModeAfter(m, s + t) == ModeAfter(ModeAfter(m, s), t)
    decreases |s|
  {
    if s == [] {
      assert s + t == t;
    } else {
      assert (s + t)[1..] == s[1..] + t;
      ModeConcat(NextMode(m, s[0]), s[1..], t);
    }
  }

  lemma EscapeStaysInside(c: Byte)
    requires c < SPACE
    ensures ModeAfter(Inside, EscapeControl(c)) == Inside && NoneForbidden(Inside, EscapeControl(c))
  {
    var e := EscapeControl(c);
    assert e[1..][0] == e[1] && e[1..][1..] == e[2..];
    PlainStaysInside(e[2..]);
  }

  lemma {:induction false} PlainStaysInside(s: Text)
    requires forall i :: 0 <= i < |s| ==> s[i] >= SPACE && s[i] != QUOTE && s[i] != BACKSLASH
    ensures ModeAfter(Inside, s) == Inside && NoneForbidden(Inside, s)
    decreases |s|
  {
    if s != [] {
      PlainStaysInside(s[1..]);
    }
  }

  /** After any beginning of the input, the scanner of the output is where the
      scanner of the input is. */
  lemma {:induction false} ScannersInStep(m: Mode, s: Text)
    ensures ModeAfter(m, Rewritten(m, s)) == ModeAfter(m, s)
    decreases |s|
  {
    if s != [] {
      var head := Escape(m, s[0]);
      ScannersInStep(NextMode(m, s[0]), s[1..]);
      ModeConcat(m, head, Rewritten(NextMode(m, s[0]), s[1..]));
      if Forbidden(m, s[0]) {
        EscapeStaysInside(s[0]);
      } else {
        assert head[1..] == [];
      }
    }
  }

  // ---- What changes ----

  /** No unescaped control byte inside a string. */
  predicate NoneForbidden(m: Mode, s: Text)
    decreases |s|
  {
    s == [] || (!Forbidden(m, s[0]) && NoneForbidden(NextMode(m, s[0]), s[1..]))
  }

  lemma {:induction false} NoneForbiddenMeans(m: Mode, s: Text)
    ensures NoneForbidden(m, s) <==> forall i :: 0 <= i < |s| ==> !Forbidden(ModeAfter(m, s[..i]), s[i])
    decreases |s|
  {
    if s != [] {
      var m' := NextMode(m, s[0]);
      NoneForbiddenMeans(m', s[1..]);
      assert s[..0] == [];
      forall i | 0 < i < |s| ensures ModeAfter(m, s[..i]) == ModeAfter(m', s[1..][..i - 1]) && s[i] == s[1..][i - 1] {
        assert s[..i][1..] == s[1..][..i - 1];
      }
      if forall i :: 0 <= i < |s| ==> !Forbidden(ModeAfter(m, s[..i]), s[i]) {
        forall i | 0 <= i < |s[1..]| ensures !Forbidden(ModeAfter(m', s[1..][..i]), s[1..][i]) {
          assert !Forbidden(ModeAfter(m, s[..i + 1]), s[i + 1]);
        }
        assert !Forbidden(ModeAfter(m, s[..0]), s[0]);
      }
    }
  }

  lemma {:induction false} NoneForbiddenConcat(m: Mode, s: Text, t: Text)
    ensures NoneForbidden(m, s + t) <==> NoneForbidden(m, s) && NoneForbidden(ModeAfter(m, s), t)
    decreases |s|
  {
    if s == [] {
      assert s + t == t;
    } else {
      assert (s + t)[1..] == s[1..] + t;
      NoneForbiddenConcat(NextMode(m, s[0]), s[1..], t);
    }
  }

  /** Only unescaped control bytes inside strings change anything. */
  lemma {:induction false} ChangedOnlyIfForbidden(m: Mode, s: Text)
    ensures Rewritten(m, s) == s <==> NoneForbidden(m, s)
    ensures |Rewritten(m, s)| >= |s| && (!NoneForbidden(m, s) ==> |Rewritten(m, s)| > |s|)
    decreases |s|
  {
    if s != [] {
      ChangedOnlyIfForbidden(NextMode(m, s[0]), s[1..]);
      assert s == [s[0]] + s[1..];
    }
  }

  lemma {:induction false} ResultHasNone(m: Mode, s: Text)
    ensures NoneForbidden(m, Rewritten(m, s))
    decreases |s|
  {
    if s != [] {
      var head := Escape(m, s[0]);
      var rest := Rewritten(NextMode(m, s[0]), s[1..]);
      ResultHasNone(NextMode(m, s[0]), s[1..]);
      NoneForbiddenConcat(m, head, rest);
      if Forbidden(m, s[0]) {
        EscapeStaysInside(s[0]);
      } else {
        assert head[1..] == [];
      }
    }
  }

  /** A second pass changes nothing. */
  lemma RepairedOnce(m: Mode, s: Text)
    ensures Rewritten(m, Rewritten(m, s)) == Rewritten(m, s)
  {
    ResultHasNone(m, s);
    ChangedOnlyIfForbidden(m, Rewritten(m, s));
  }

  // ---- What strings mean does not change ----

  /** How many hexadecimal digits s starts with. */
  function HexRun(s: Text): nat {
    if s == [] || HexValue(s[0]) < 0 then 0 else 1 + HexRun(s[1..])
  }

  lemma {:induction false} HexRunKept(s: Text)
    ensures HexRun(Rewritten(Inside, s)) == HexRun(s)
  {
    if s != [] && HexValue(s[0]) >= 0 {
      HexRunKept(s[1..]);
      var rest := Rewritten(Inside, s[1..]);
      assert Rewritten(Inside, s) == [s[0]] + rest;
      assert ([s[0]] + rest)[1..] == rest;
    }
  }

  lemma HexRunStep(s: Text, k: nat)
    requires k < |s|
    ensures HexRun(s[k..]) == if HexValue(s[k]) < 0 then 0 else 1 + HexRun(s[k + 1..])
  {
    assert s[k..][1..] == s[k + 1..];
  }

  lemma {:induction false} HexRunShort(s: Text)
    ensures HexRun(s) <= |s|
  {
    if s != [] {
      HexRunShort(s[1..]);
    }
  }

  lemma FourHexIsRun(s: Text)
    ensures FourHex(s).Some? <==> HexRun(s) >= 4
  {
    HexRunShort(s);
    if |s| >= 4 {
      assert s[0..] == s;
      HexRunStep(s, 0);
      HexRunStep(s, 1);
      HexRunStep(s, 2);
      HexRunStep(s, 3);
    }
  }

  lemma {:induction false} RunTail(s: Text, k: nat)
    requires k <= HexRun(s)
    ensures k <= |s| && k <= |Rewritten(Inside, s)| && Rewritten(Inside, s)[..k] == s[..k]
    ensures Rewritten(Inside, s)[k..] == Rewritten(Inside, s[k..])
  {
    if k > 0 {
      RunTail(s[1..], k - 1);
      var rest := Rewritten(Inside, s[1..]);
      assert Rewritten(Inside, s) == [s[0]] + rest;
      assert s[..k] == [s[0]] + s[1..][..k - 1];
      assert s[1..][k - 1..] == s[k..];
    }
  }

  lemma FourHexKept(s: Text)
    ensures FourHex(Rewritten(Inside, s)) == FourHex(s)
    ensures FourHex(s).Some? ==> Rewritten(Inside, s)[4..] == Rewritten(Inside, s[4..])
  {
    HexRunKept(s);
    FourHexIsRun(s);
    FourHexIsRun(Rewritten(Inside, s));
    if FourHex(s).Some? {
      RunTail(s, 4);
      assert forall i :: 0 <= i < 4 ==> s[..4][i] == s[i] && Rewritten(Inside, s)[..4][i] == Rewritten(Inside, s)[i];
    }
  }

  function Scanner(inString: bool): Mode {
    if inString then Inside else Outside
  }

  lemma EscapeRewritten(s: Text)
    requires |s| >= 2 && s[0] == BACKSLASH
    ensures Rewritten(Inside, s) == [BACKSLASH, s[1]] + Rewritten(Inside, s[2..])
  {
    assert s[1..][1..] == s[2..];
  }

  /** What the strings say, and everything outside them, is the same before
      and after. */
  lemma {:induction false} MeaningKept(inString: bool, s: Text)
    ensures Decoded(inString, Rewritten(Scanner(inString), s)) == Decoded(inString, s)
    decreases |s|, 1
  {
    if s != [] {
      if inString && s[0] == BACKSLASH {
        if |s| >= 2 {
          EscapeMeaningKept(s);
        } else {
          assert s[1..] == [];
        }
      } else {
        MeaningKept(if inString then s[0] != QUOTE else s[0] == QUOTE, s[1..]);
        if inString && s[0] < SPACE {
          EscapeDecodes(s[0], Rewritten(Inside, s[1..]));
        } else {
          var rest := Rewritten(NextMode(Scanner(inString), s[0]), s[1..]);
          assert ([s[0]] + rest)[1..] == rest;
        }
      }
    }
  }

  lemma {:induction false} EscapeMeaningKept(s: Text)
    requires |s| >= 2 && s[0] == BACKSLASH
    ensures Decoded(true, Rewritten(Inside, s)) == Decoded(true, s)
    decreases |s|, 0
  {
    EscapeRewritten(s);
    var rest := Rewritten(Inside, s[2..]);
    var r := [BACKSLASH, s[1]] + rest;
    assert r[2..] == rest;
    if s[1] == 0x75 && FourHex(s[2..]).Some? {
      FourHexKept(s[2..]);
      MeaningKept(true, s[6..]);
      assert s[2..][4..] == s[6..] && r[6..] == rest[4..];
    } else {
      MeaningKept(true, s[2..]);
      FourHexKept(s[2..]);
    }
  }

  /** Reading a text as a decoder does, escapes in one go, no string holds a byte
      that section 7 of RFC 8259 says must be escaped, quotes and backslashes
      apart. */
  predicate NothingRaw(inString: bool, s: Text)
    decreases |s|
  {
    if s == [] then true
    else if !inString then NothingRaw(s[0] == QUOTE, s[1..])
    else if s[0] == QUOTE then NothingRaw(false, s[1..])
    else if s[0] == BACKSLASH then |s| == 1 || NothingRaw(true, s[2..])
    else s[0] >= 0x20 && NothingRaw(true, s[1..])
  }

  lemma {:induction false} RawIsForbidden(inString: bool, s: Text)
    ensures NothingRaw(inString, s) <==> NoneForbidden(Scanner(inString), s)
    decreases |s|
  {
    if s != [] {
      if inString && s[0] == BACKSLASH {
        if |s| >= 2 {
          RawIsForbidden(true, s[2..]);
          assert s[1..][1..] == s[2..];
        }
      } else {
        RawIsForbidden(if inString then s[0] != QUOTE else s[0] == QUOTE, s[1..]);
      }
    }
  }

  /** What comes out holds nothing raw, and what held nothing raw comes out as it
      was; anything else changes. */
  lemma NothingRawLeft(inString: bool, s: Text)
    ensures NothingRaw(inString, Rewritten(Scanner(inString), s))
    ensures Rewritten(Scanner(inString), s) == s <==> NothingRaw(inString, s)
  {
    ResultHasNone(Scanner(inString), s);
    RawIsForbidden(inString, Rewritten(Scanner(inString), s));
    RawIsForbidden(inString, s);
    ChangedOnlyIfForbidden(Scanner(inString), s);
  }
}
