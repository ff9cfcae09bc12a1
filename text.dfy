/**
 * The text formats the bot writes into messages: decimal numbers (the
 * `Display` of integers and of ids), user mentions `<@id>`, lines separated
 * by `'\n'`, the `join` of itertools, and lower-case hexadecimal.
 * Each writer is paired with a reader and a round-trip lemma.
 */
module Text {
  import opened Wrappers
  import opened Primitives

  // ---------------------------------------------------------------- decimal

  predicate IsDigit(c: char) {
    '0' <= c <= '9'
  }

  predicate AllDigits(s: string) {
    forall i | 0 <= i < |s| :: IsDigit(s[i])
  }

  function DigitChar(d: nat): (c: char)
    requires d < 10
    ensures IsDigit(c)
  {
    (('0' as int) + d) as char
  }

  function DigitValue(c: char): (d: nat)
    requires IsDigit(c)
    ensures d < 10 && DigitChar(d) == c
  {
    (c as int) - ('0' as int)
  }

  /** The decimal rendering of `n`, most significant digit first, without leading zeros. */
  function Decimal(n: nat): (s: string)
    ensures |s| > 0 && AllDigits(s)
    ensures |s| > 1 ==> s[0] != '0'
    decreases n
  {
    if n < 10 then [DigitChar(n)] else Decimal(n / 10) + [DigitChar(n % 10)]
  }

  /** The number a string of decimal digits denotes. */
  function DecimalValue(s: string): nat
    requires AllDigits(s)
    decreases |s|
  {
    if |s| == 0 then 0 else DecimalValue(s[..|s| - 1]) * 10 + DigitValue(s[|s| - 1])
  }

  lemma {:induction false} DecimalRoundTrip(n: nat)
    ensures DecimalValue(Decimal(n)) == n
    decreases n
  {
    if n >= 10 {
      var s := Decimal(n);
      assert s[..|s| - 1] == Decimal(n / 10);
      DecimalRoundTrip(n / 10);
    }
  }

  // ------------------------------------------------------------------ lines

  predicate NoBreak(s: string) {
    '\n' !in s
  }

  /** `s` split at every `'\n'`; a string without a break is one line. */
  function Lines(s: string): (ls: seq<string>)
    ensures |ls| > 0
    decreases |s|
  {
    if |s| == 0 then [""]
    else if s[0] == '\n' then [""] + Lines(s[1..])
    else
      var rest := Lines(s[1..]);
      [[s[0]] + rest[0]] + rest[1..]
  }

  /** The lines `ls` written one after another with a `'\n'` between neighbours. */
  function Unlines(ls: seq<string>): string
    requires |ls| > 0
    decreases |ls|
  {
    if |ls| == 1 then ls[0] else ls[0] + "\n" + Unlines(ls[1..])
  }

  lemma {:induction false} LinesNoBreak(x: string)
    requires NoBreak(x)
    ensures Lines(x) == [x]
    decreases |x|
  {
    if |x| > 0 {
      LinesNoBreak(x[1..]);
      assert [x[0]] + x[1..] == x;
    }
  }

  lemma {:induction false} LinesBreak(x: string, y: string)
    requires NoBreak(x)
    ensures Lines(x + "\n" + y) == [x] + Lines(y)
    decreases |x|
  {
    var s := x + "\n" + y;
    if |x| == 0 {
      assert s[1..] == y;
    } else {
      assert s[1..] == x[1..] + "\n" + y;
      LinesBreak(x[1..], y);
      assert [x[0]] + x[1..] == x;
    }
  }

  lemma {:induction false} LinesUnlines(ls: seq<string>)
    requires |ls| > 0
    requires forall i | 0 <= i < |ls| :: NoBreak(ls[i])
    ensures Lines(Unlines(ls)) == ls
    decreases |ls|
  {
    if |ls| == 1 {
      LinesNoBreak(ls[0]);
    } else {
      LinesUnlines(ls[1..]);
      LinesBreak(ls[0], Unlines(ls[1..]));
    }
  }

  lemma {:induction false} UnlinesAppend(a: seq<string>, b: seq<string>)
    requires |a| > 0 && |b| > 0
    ensures Unlines(a + b) == Unlines(a) + "\n" + Unlines(b)
    decreases |a|
  {
    if |a| == 1 {
      assert (a + b)[1..] == b;
    } else {
      assert (a + b)[1..] == a[1..] + b;
      UnlinesAppend(a[1..], b);
    }
  }

  // ------------------------------------------------------------------- join

  /** itertools' `join`: the parts with `sep` between neighbours, empty for no parts. */
  function Join(parts: seq<string>, sep: string): string
    decreases |parts|
  {
    if |parts| == 0 then ""
    else if |parts| == 1 then parts[0]
    else parts[0] + sep + Join(parts[1..], sep)
  }

  /** Joining lines with breaks is writing them out. */
  lemma {:induction false} JoinUnlines(parts: seq<string>)
    requires |parts| > 0
    ensures Join(parts, "\n") == Unlines(parts)
    decreases |parts|
  {
    if |parts| > 1 {
      JoinUnlines(parts[1..]);
    }
  }

  // --------------------------------------------------------------- mentions

  /** A user mention as the chat platform parses it: `<@` id `>`. */
  function Mention(u: nat): string {
    "<@" + Decimal(u) + ">"
  }

  function Mentions(us: seq<nat>): (ms: seq<string>)
    ensures |ms| == |us|
    ensures forall i | 0 <= i < |us| :: ms[i] == Mention(us[i])
  {
    if |us| == 0 then [] else [Mention(us[0])] + Mentions(us[1..])
  }

  /** The length of the longest prefix of `s` made of digits. */
  function DigitRun(s: string): (n: nat)
    ensures n <= |s| && AllDigits(s[..n])
    ensures n < |s| ==> !IsDigit(s[n])
    decreases |s|
  {
    if |s| == 0 || !IsDigit(s[0]) then 0 else 1 + DigitRun(s[1..])
  }

  /** Reads one mention at the start of `s`: the user id and the number of characters it takes. */
  function ParseMention(s: string): (r: Option<(nat, nat)>)
    ensures r.Some? ==> 0 < r.value.1 <= |s|
  {
    if |s| < 2 || s[0] != '<' || s[1] != '@' then None
    else
      var n := DigitRun(s[2..]);
      if n == 0 || 2 + n >= |s| || s[2 + n] != '>' then None
      else
        assert s[2..2 + n] == s[2..][..n];
        Some((DecimalValue(s[2..2 + n]), 3 + n))
  }

  /** Reads a run of mentions, allowing spaces between (and around) them. */
  function ParseMentions(s: string): Option<seq<nat>>
    decreases |s|
  {
    if |s| == 0 then Some([])
    else if s[0] == ' ' then ParseMentions(s[1..])
    else match ParseMention(s)
      case None => None
      case Some(m) =>
        match ParseMentions(s[m.1..])
        case None => None
        case Some(us) => Some([m.0] + us)
  }

  lemma {:induction false} DigitRunOfDecimal(d: string, t: string)
    requires AllDigits(d)
    requires |t| > 0 && !IsDigit(t[0])
    ensures DigitRun(d + t) == |d|
    decreases |d|
  {
    if |d| > 0 {
      assert (d + t)[1..] == d[1..] + t;
      DigitRunOfDecimal(d[1..], t);
    } else {
      assert d + t == t;
    }
  }

  lemma ParseMentionPrefix(u: nat, rest: string)
    ensures ParseMention(Mention(u) + rest) == Some((u, |Mention(u)|))
  {
    var d := Decimal(u);
    var s := Mention(u) + rest;
    assert s == "<@" + (d + (">" + rest));
    assert s[2..] == d + (">" + rest);
    DigitRunOfDecimal(d, ">" + rest);
    assert s[2..2 + |d|] == d;
    DecimalRoundTrip(u);
  }

  lemma ParseMentionsCons(u: nat, rest: string)
    requires ParseMentions(rest).Some?
    ensures ParseMentions(Mention(u) + rest) == Some([u] + ParseMentions(rest).value)
  {
    var s := Mention(u) + rest;
    ParseMentionPrefix(u, rest);
    assert s[0] == '<';
    assert s[|Mention(u)|..] == rest;
  }

  /** Mentions joined by single spaces read back as the same users in the same order. */
  lemma {:induction false} ParseJoinedMentions(us: seq<nat>)
    ensures ParseMentions(Join(Mentions(us), " ")) == Some(us)
    decreases |us|
  {
    if |us| == 0 {
    } else if |us| == 1 {
      assert Join(Mentions(us), " ") == Mention(us[0]) + "";
      ParseMentionsCons(us[0], "");
      assert [us[0]] + [] == us;
    } else {
      var tail := Join(Mentions(us[1..]), " ");
      assert Mentions(us)[1..] == Mentions(us[1..]);
      assert Join(Mentions(us), " ") == Mention(us[0]) + (" " + tail);
      ParseJoinedMentions(us[1..]);
      assert (" " + tail)[1..] == tail;
      assert ParseMentions(" " + tail) == ParseMentions(tail);
      ParseMentionsCons(us[0], " " + tail);
      assert [us[0]] + us[1..] == us;
    }
  }

  // -------------------------------------------------------------------- hex

  function HexDigit(d: nat): char
    requires d < 16
  {
    if d < 10 then (('0' as int) + d) as char else (('a' as int) + d - 10) as char
  }

  function HexValue(c: char): (r: Option<nat>)
    ensures r.Some? ==> r.value < 16
  {
    if '0' <= c <= '9' then Some((c as int) - ('0' as int))
    else if 'a' <= c <= 'f' then Some((c as int) - ('a' as int) + 10)
    else None
  }

  lemma HexDigitValue(d: nat)
    requires d < 16
    ensures HexValue(HexDigit(d)) == Some(d)
  {
  }

  /** Each byte as two lower-case hexadecimal digits, high nibble first. */
  function HexBytes(bs: seq<u8>): (s: string)
    ensures |s| == 2 * |bs|
    decreases |bs|
  {
    if |bs| == 0 then "" else [HexDigit(bs[0] / 16), HexDigit(bs[0] % 16)] + HexBytes(bs[1..])
  }

  function UnHex(s: string): Option<seq<u8>>
    decreases |s|
  {
    if |s| == 0 then Some([])
    else if |s| == 1 then None
    else match (HexValue(s[0]), HexValue(s[1]), UnHex(s[2..]))
      case (Some(hi), Some(lo), Some(rest)) => Some([hi * 16 + lo] + rest)
      case _ => None
  }

  lemma {:induction false} UnHexRoundTrip(bs: seq<u8>)
    ensures UnHex(HexBytes(bs)) == Some(bs)
    decreases |bs|
  {
    if |bs| > 0 {
      var s := HexBytes(bs);
      HexDigitValue(bs[0] / 16);
      HexDigitValue(bs[0] % 16);
      assert s[2..] == HexBytes(bs[1..]);
      UnHexRoundTrip(bs[1..]);
      assert [bs[0]] + bs[1..] == bs;
    }
  }

  lemma {:induction false} HexBytesAppend(a: seq<u8>, b: seq<u8>)
    ensures HexBytes(a + b) == HexBytes(a) + HexBytes(b)
    decreases |a|
  {
    if |a| > 0 {
      assert (a + b)[1..] == a[1..] + b;
      HexBytesAppend(a[1..], b);
    } else {
      assert a + b == b;
    }
  }
}
