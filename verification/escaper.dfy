/** The metadata escaper of MetricsUtils: `,` becomes `\,`, `=` becomes `\=`,
    `\` becomes `\\`, and every other character is copied unchanged. */
module Escaper {
  import opened Wrappers

  /** The three characters the escaper rewrites. */
  predicate IsSpecial(c: char) {
    c == ',' || c == '=' || c == '\\'
  }

  /** The escape of a single character. */
  function EscapeChar(c: char): (r: string)
    ensures IsSpecial(c) ==> r == ['\\', c]
    ensures !IsSpecial(c) ==> r == [c]
  {
    if IsSpecial(c) then ['\\', c] else [c]
  }

  /** How many characters of `s` the escaper rewrites. */
  function CountSpecial(s: string): (n: nat)
    ensures n == 0 <==> forall i | 0 <= i < |s| :: !IsSpecial(s[i])
  {
    if |s| == 0 then 0
    else (if IsSpecial(s[0]) then 1 else 0) + CountSpecial(s[1..])
  }

  /** `METADATA_ESCAPER.escape(s)`: each character replaced by its escape. */
  function Escape(s: string): (r: string)
    ensures |r| == |s| + CountSpecial(s)
  {
    if |s| == 0 then []
    else EscapeChar(s[0]) + Escape(s[1..])
  }

  /** A string with none of the three characters escapes to itself. */
  lemma {:induction false} EscapeIdentity(s: string)
    requires CountSpecial(s) == 0
    ensures Escape(s) == s
    decreases |s|
  {
    if |s| > 0 {
      EscapeIdentity(s[1..]);
      assert [s[0]] + s[1..] == s;
    }
  }

  /** Escaping works character by character: it distributes over concatenation. */
  lemma {:induction false} EscapeConcat(a: string, b: string)
    ensures Escape(a + b) == Escape(a) + Escape(b)
    decreases |a|
  {
    if |a| > 0 {
      assert (a + b)[1..] == a[1..] + b;
      EscapeConcat(a[1..], b);
    } else {
      assert a + b == b;
    }
  }

  /** Model-side inverse: `\x` reads as `x`; a trailing lone `\` is malformed. */
  function Unescape(s: string): (r: Option<string>)
  {
    if |s| == 0 then Some([])
    else if s[0] == '\\' then
      if |s| < 2 then None
      else match Unescape(s[2..])
        case None => None
        case Some(t) => Some([s[1]] + t)
    else match Unescape(s[1..])
      case None => None
      case Some(t) => Some([s[0]] + t)
  }

  /** Unescaping recovers whatever was escaped: the escaper loses no information. */
  lemma {:induction false} UnescapeEscape(s: string)
    ensures Unescape(Escape(s)) == Some(s)
    decreases |s|
  {
    if |s| > 0 {
      var e := Escape(s);
      UnescapeEscape(s[1..]);
      if IsSpecial(s[0]) {
        assert e[2..] == Escape(s[1..]);
      } else {
        assert e[1..] == Escape(s[1..]);
      }
      assert [s[0]] + s[1..] == s;
    }
  }

  /** Distinct keys or values never collide once escaped. */
  lemma EscapeInjective(a: string, b: string)
    ensures Escape(a) == Escape(b) ==> a == b
  {
    UnescapeEscape(a);
    UnescapeEscape(b);
  }

  /** An escaped string holds no bare `,` or `=`: each one is preceded by an escaping `\`. */
  predicate NoBareDelimiter(t: string)
    decreases |t|
  {
    if |t| == 0 then true
    else if t[0] == '\\' then |t| >= 2 && NoBareDelimiter(t[2..])
    else t[0] != ',' && t[0] != '=' && NoBareDelimiter(t[1..])
  }

  lemma {:induction false} EscapeHasNoBareDelimiter(s: string)
    ensures NoBareDelimiter(Escape(s))
    decreases |s|
  {
    if |s| > 0 {
      var e := Escape(s);
      EscapeHasNoBareDelimiter(s[1..]);
      if IsSpecial(s[0]) {
        assert e[2..] == Escape(s[1..]);
      } else {
        assert e[1..] == Escape(s[1..]);
      }
    }
  }

  /** Reads an escaped segment up to the first bare `,` or `=` (or the end),
      returning the unescaped segment and the unread rest, which starts at that delimiter. */
  function ReadSegment(s: string): (r: (string, string))
    ensures |r.1| <= |s|
    ensures |r.1| == 0 || r.1[0] == ',' || r.1[0] == '='
  {
    if |s| == 0 then ([], [])
    else if s[0] == ',' || s[0] == '=' then ([], s)
    else if s[0] == '\\' && |s| >= 2 then
      var (seg, rest) := ReadSegment(s[2..]);
      ([s[1]] + seg, rest)
    else
      var (seg, rest) := ReadSegment(s[1..]);
      ([s[0]] + seg, rest)
  }

  /** An escape pair `\c` reads as `c`, and reading carries on after it. */
  lemma ReadSegmentEscaped(c: char, tail: string)
    ensures ReadSegment(['\\', c] + tail) == ([c] + ReadSegment(tail).0, ReadSegment(tail).1)
  {
    var t := ['\\', c] + tail;
    assert t[0] == '\\' && t[1] == c && t[2..] == tail;
  }

  /** A character other than `,`, `=` and `\` reads as itself, and reading carries on after it. */
  lemma ReadSegmentPlain(c: char, tail: string)
    requires !IsSpecial(c)
    ensures ReadSegment([c] + tail) == ([c] + ReadSegment(tail).0, ReadSegment(tail).1)
  {
    var t := [c] + tail;
    assert t[0] == c && t[1..] == tail;
  }

  /** Whatever follows it, an escaped character reads back as that character. */
  lemma ReadSegmentEscapeChar(c: char, tail: string)
    ensures ReadSegment(EscapeChar(c) + tail) == ([c] + ReadSegment(tail).0, ReadSegment(tail).1)
  {
    if IsSpecial(c) {
      ReadSegmentEscaped(c, tail);
    } else {
      ReadSegmentPlain(c, tail);
    }
  }

  /** Escaping peels off one character at the front, whatever follows. */
  lemma EscapeStep(s: string, rest: string)
    requires |s| > 0
    ensures Escape(s) + rest == EscapeChar(s[0]) + (Escape(s[1..]) + rest)
  {
    var head, tail := EscapeChar(s[0]), Escape(s[1..]);
    assert Escape(s) == head + tail;
    AppendAssoc(head, tail, rest);
  }

  lemma AppendAssoc(a: string, b: string, c: string)
    ensures (a + b) + c == a + (b + c)
  {
  }

  /** Reading an escaped string stops exactly where the escaped string ends. */
  lemma {:induction false} ReadSegmentEscape(s: string, rest: string)
    requires |rest| == 0 || rest[0] == ',' || rest[0] == '='
    ensures ReadSegment(Escape(s) + rest) == (s, rest)
    decreases |s|
  {
    if |s| == 0 {
      assert Escape(s) + rest == rest;
    } else {
      ReadSegmentEscape(s[1..], rest);
      EscapeStep(s, rest);
      ReadSegmentEscapeChar(s[0], Escape(s[1..]) + rest);
      assert [s[0]] + s[1..] == s;
    }
  }
}
