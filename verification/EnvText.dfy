/** One assignment of a dotenv file: splitting the text after `KEY=` and printing it back. */
module EnvText {

  /** The characters `str.strip` and the regular-expression class `\s` treat as white space. */
  predicate IsSpace(c: char) {
    var n := c as int;
    9 <= n <= 13 || 28 <= n <= 32 || n == 0x85 || n == 0xA0 || n == 0x1680 || 0x2000 <= n <= 0x200A
    || n == 0x2028 || n == 0x2029 || n == 0x202F || n == 0x205F || n == 0x3000
  }

  predicate IsQuote(c: char) { c == '\'' || c == '"' }

  function LStrip(s: string): string {
    if s != [] && IsSpace(s[0]) then LStrip(s[1..]) else s
  }

  function RStrip(s: string): string {
    if s != [] && IsSpace(s[|s| - 1]) then RStrip(s[..|s| - 1]) else s
  }

  function Strip(s: string): string { RStrip(LStrip(s)) }

  /** Position of the first `c` at or after `from`, or -1. */
  function Find(s: string, c: char, from: nat): (r: int)
    requires from <= |s|
    ensures r == -1 ==> forall k :: from <= k < |s| ==> s[k] != c
    ensures r != -1 ==> from <= r < |s| && s[r] == c && forall k :: from <= k < r ==> s[k] != c
    decreases |s| - from
  {
    if from == |s| then -1 else if s[from] == c then from else Find(s, c, from + 1)
  }

  /** The pattern `\s+#` matches at position `i`. */
  predicate CommentAt(s: string, i: nat)
    decreases |s| - i
  {
    i + 1 < |s| && IsSpace(s[i]) && (s[i + 1] == '#' || CommentAt(s, i + 1))
  }

  /** Leftmost match of `\s+#` at or after `i`, or -1. */
  function SearchComment(s: string, i: nat): (r: int)
    requires i <= |s|
    ensures r == -1 ==> forall k :: i <= k < |s| ==> !CommentAt(s, k)
    ensures r != -1 ==> i <= r < |s| && CommentAt(s, r) && forall k :: i <= k < r ==> !CommentAt(s, k)
    decreases |s| - i
  {
    if i == |s| then -1 else if CommentAt(s, i) then i else SearchComment(s, i + 1)
  }

  function Unquoted(text: string): (string, string) {
    var m := SearchComment(text, 0);
    if m == -1 then (text, "") else (Strip(text[..m]), Strip(text[m..]))
  }

  function SplitValueComment(raw: string): (string, string) {
    var text := Strip(raw);
    if text != [] && text[0] == '#' then ("", text)
    else if text != [] && IsQuote(text[0]) then
      var end := Find(text, text[0], 1);
      if end == -1 then Unquoted(text)
      else
        var rest := text[end + 1..];
        var hash := Find(rest, '#', 0);
        (text[..end + 1], if hash == -1 then "" else Strip(rest[hash..]))
    else Unquoted(text)
  }

  predicate AlreadyQuoted(value: string) {
    value != [] && IsQuote(value[0]) && value[|value| - 1] == value[0]
  }

  /** What is written for `value`: double quotes are added to an unquoted value that needs them. */
  function Written(quoted: bool, value: string): string {
    if quoted && !AlreadyQuoted(value) then "\"" + value + "\"" else value
  }

  /** The text printed after `KEY=`. */
  function Printed(value: string, comment: string): string {
    if comment == "" then value else value + "  " + comment
  }

  /** The code points of white space. */
  const SPACES: set<int> := {
    0x09, 0x0A, 0x0B, 0x0C, 0x0D, 0x1C, 0x1D, 0x1E, 0x1F, 0x20, 0x85, 0xA0, 0x1680, 0x2000, 0x2001, 0x2002, 0x2003, 0x2004,
    0x2005, 0x2006, 0x2007, 0x2008, 0x2009, 0x200A, 0x2028, 0x2029, 0x202F, 0x205F, 0x3000}

  lemma IsSpaceIff(c: char)
    ensures IsSpace(c) <==> c as int in SPACES
  {
  }

  /** Under an always-quoted key what is written begins and ends with one kind of quote: the value's own, or a pair of
      double quotes around it; under any other key it is the value. */
  lemma WrittenIs(value: string)
    ensures var own := value != "" && (value[0] == '"' || value[0] == '\'') && value[|value| - 1] == value[0];
      Written(true, value) == (if own then value else "\"" + value + "\"") && Written(false, value) == value
  {
  }

  // ----- what splitting can produce

  predicate Stripped(s: string) { s != [] && !IsSpace(s[0]) && !IsSpace(s[|s| - 1]) }

  /** A quote, then text without that quote, then the quote. */
  predicate Closed(v: string) {
    |v| >= 2 && IsQuote(v[0]) && v[|v| - 1] == v[0]
    && forall k :: 1 <= k < |v| - 1 ==> v[k] != v[0]
  }

  /** No second copy of the first character. */
  predicate Unclosed(v: string)
    requires v != []
  {
    forall k :: 1 <= k < |v| ==> v[k] != v[0]
  }

  predicate Bare(v: string) {
    && Stripped(v) && v[0] != '#'
    && (forall k :: 0 <= k < |v| ==> !CommentAt(v, k))
    && (IsQuote(v[0]) ==> Unclosed(v))
  }

  predicate CommentShape(c: string) { c == "" || (Stripped(c) && c[0] == '#') }

  /** What a value can be: empty, quoted, or bare. */
  predicate ValueShape(v: string) { v == "" || Closed(v) || Bare(v) }

  /** The value opens a quote it does not close, and the comment closes it. */
  predicate Swallows(v: string, c: string) { v != "" && IsQuote(v[0]) && Unclosed(v) && v[0] in c }

  /** `v` and `c` can stand on one line without one swallowing the other. */
  predicate Fits(v: string, c: string) { CommentShape(c) && ValueShape(v) && !Swallows(v, c) }

  lemma {:induction false} RStripIsPrefix(s: string)
    ensures var r := RStrip(s);
            |r| <= |s| && r == s[..|r|] && (r == [] || !IsSpace(r[|r| - 1]))
    ensures s != [] && !IsSpace(s[0]) ==> Stripped(RStrip(s))
    ensures s == [] || !IsSpace(s[|s| - 1]) ==> RStrip(s) == s
  {
    if s != [] && IsSpace(s[|s| - 1]) {
      RStripIsPrefix(s[..|s| - 1]);
    }
  }

  lemma {:induction false} LStripIsSuffix(s: string)
    ensures var r := LStrip(s);
            |r| <= |s| && r == s[|s| - |r|..] && (r == [] || !IsSpace(r[0]))
    ensures s == [] || !IsSpace(s[0]) ==> LStrip(s) == s
  {
    if s != [] && IsSpace(s[0]) {
      LStripIsSuffix(s[1..]);
    }
  }

  lemma StripShape(s: string)
    ensures Strip(s) == "" || Stripped(Strip(s))
    ensures s == "" || Stripped(s) ==> Strip(s) == s
    ensures s != [] && !IsSpace(s[0]) ==> Stripped(Strip(s)) && Strip(s)[0] == s[0] && Strip(s) <= s
    ensures forall c :: c in Strip(s) ==> c in s
  {
    LStripIsSuffix(s);
    RStripIsPrefix(LStrip(s));
    RStripIsPrefix(s);
  }

  lemma StripIndented(c: string)
    requires Stripped(c)
    ensures Strip("  " + c) == c
  {
    var s := "  " + c;
    assert s[1..] == " " + c && s[1..][1..] == c;
    LStripIsSuffix(c);
    assert LStrip(s) == c;
    StripShape(c);
  }

  /** A match in a prefix is a match in the whole text. */
  lemma {:induction false} CommentInPrefix(s: string, t: string, k: nat)
    requires CommentAt(s, k)
    ensures CommentAt(s + t, k)
    decreases |s| - k
  {
    if s[k + 1] != '#' {
      CommentInPrefix(s, t, k + 1);
    }
  }

  /** A match never starts before the last visible character in front of it. */
  lemma {:induction false} CommentStopsAtText(s: string, t: string, k: nat)
    requires k < |s| && !IsSpace(s[|s| - 1]) && CommentAt(s + t, k)
    ensures CommentAt(s, k)
    decreases |s| - k
  {
    if (s + t)[k + 1] != '#' {
      CommentStopsAtText(s, t, k + 1);
    }
  }

  lemma {:induction false} CommentText(s: string, k: nat)
    requires CommentAt(s, k)
    ensures LStrip(s[k..]) != [] && LStrip(s[k..])[0] == '#'
    decreases |s| - k
  {
    assert s[k..][1..] == s[k + 1..];
    if s[k + 1] == '#' {
      LStripIsSuffix(s[k + 1..]);
    } else {
      CommentText(s, k + 1);
    }
  }

  lemma SplitFits(raw: string)
    ensures var (v, c) := SplitValueComment(raw); Fits(v, c)
  {
    var text := Strip(raw);
    StripShape(raw);
    if text == [] || text[0] == '#' {
    } else {
      var end := if IsQuote(text[0]) then Find(text, text[0], 1) else -1;
      if end != -1 {
        QuotedFits(text, end);
      } else {
        UnquotedFits(text);
      }
    }
  }

  lemma QuotedFits(text: string, end: nat)
    requires text != [] && IsQuote(text[0]) && Find(text, text[0], 1) == end
    ensures var (v, c) := (text[..end + 1], text[end + 1..]);
            var hash := Find(c, '#', 0);
            Fits(v, if hash == -1 then "" else Strip(c[hash..]))
  {
    var c := text[end + 1..];
    var hash := Find(c, '#', 0);
    if hash != -1 {
      StripShape(c[hash..]);
    }
  }

  lemma UnquotedFits(text: string)
    requires Stripped(text) && text[0] != '#' && (IsQuote(text[0]) ==> Unclosed(text))
    ensures var (v, c) := Unquoted(text); v != "" && Fits(v, c)
  {
    var m := SearchComment(text, 0);
    if m != -1 {
      var v, c := text[..m], text[m..];
      assert text == v + c;
      if m > 0 && IsSpace(text[m - 1]) {
        assert CommentAt(text, m - 1);
      }
      assert Stripped(v);
      StripShape(v);
      forall k | 0 <= k < |v| ensures !CommentAt(v, k) {
        if CommentAt(v, k) {
          CommentInPrefix(v, c, k);
        }
      }
      CommentText(text, m);
      RStripIsPrefix(LStrip(c));
      StripShape(c);
      assert IsQuote(text[0]) ==> forall x :: x in c ==> x != text[0];
    }
  }

  /** Printing a value and a comment that fit together and splitting the line gives both back. */
  lemma PrintedSplits(v: string, c: string)
    requires Fits(v, c)
    ensures SplitValueComment(Printed(v, c)) == (v, c)
  {
    var text := Printed(v, c);
    if v == "" {
      if c != "" {
        assert text == "  " + c;
        StripIndented(c);
      }
    } else {
      assert text[0] == v[0] && text[|text| - 1] == if c == "" then v[|v| - 1] else c[|c| - 1];
      StripShape(text);
      if Closed(v) {
        ClosedSplits(v, c);
      } else {
        BareSplits(v, c);
      }
    }
  }

  lemma ClosedSplits(v: string, c: string)
    requires Closed(v) && CommentShape(c) && Strip(Printed(v, c)) == Printed(v, c)
    ensures SplitValueComment(Printed(v, c)) == (v, c)
  {
    var text := Printed(v, c);
    var end := Find(text, v[0], 1);
    assert text[..|v|] == v && text[|v| - 1] == v[0];
    assert text[..end + 1] == v;
    if c != "" {
      assert text[end + 1..] == "  " + c;
      IndentedHash(c);
    }
  }

  /** After two blanks the first hash opens the comment. */
  lemma IndentedHash(c: string)
    requires Stripped(c) && c[0] == '#'
    ensures Find("  " + c, '#', 0) == 2 && Strip(("  " + c)[2..]) == c
  {
    var rest := "  " + c;
    assert rest[0] == ' ' && rest[1] == ' ' && rest[2] == '#' && rest[2..] == c;
    StripShape(c);
  }

  lemma BareSplits(v: string, c: string)
    requires Bare(v) && CommentShape(c) && (IsQuote(v[0]) ==> v[0] !in c) && Strip(Printed(v, c)) == Printed(v, c)
    ensures SplitValueComment(Printed(v, c)) == (v, c)
  {
    var text := Printed(v, c);
    if IsQuote(v[0]) {
      assert Unclosed(text);
    }
    if c != "" {
      assert text == v + ("  " + c);
      forall k | 0 <= k < |v| ensures !CommentAt(text, k) {
        if CommentAt(text, k) {
          CommentStopsAtText(v, "  " + c, k);
        }
      }
      assert text[|v|] == ' ' && text[|v| + 1] == ' ' && text[|v| + 2] == '#';
      assert CommentAt(text, |v| + 1);
      assert CommentAt(text, |v|);
      assert SearchComment(text, 0) == |v|;
      assert text[..|v|] == v && text[|v|..] == "  " + c;
      StripIndented(c);
      StripShape(v);
    }
  }

  /** Every line survives being split, printed without added quotes, and split again. */
  lemma SplitPrintRoundTrip(raw: string)
    ensures var (v, c) := SplitValueComment(raw);
            SplitValueComment(Printed(Written(false, v), c)) == (v, c)
  {
    var (v, c) := SplitValueComment(raw);
    SplitFits(raw);
    PrintedSplits(v, c);
  }

  /** No stray double quote: the value is quoted already, or holds none. */
  predicate NoStrayQuote(v: string) { AlreadyQuoted(v) || '"' !in v }

  lemma WrittenFits(v: string, c: string)
    requires Fits(v, c) && NoStrayQuote(v)
    ensures Fits(Written(true, v), c)
  {
    if !AlreadyQuoted(v) {
      var w := Written(true, v);
      assert w[0] == '"' && w[|w| - 1] == '"';
      forall k | 1 <= k < |w| - 1 ensures w[k] != '"' { assert w[k] == v[k - 1] && v[k - 1] in v; }
      assert Closed(w);
    }
  }

  /** A line that opens a quote is cut at the first place that closes it. */
  lemma QuoteCuts(text: string, j: nat)
    requires Stripped(text) && IsQuote(text[0]) && 1 <= j < |text| && text[j] == text[0]
    ensures var end := Find(text, text[0], 1); 1 <= end <= j && SplitValueComment(text).0 == text[..end + 1]
  {
    StripShape(text);
  }

  lemma PrintedIsStripped(w: string, c: string)
    requires Stripped(w) && CommentShape(c)
    ensures Stripped(Printed(w, c)) && w <= Printed(w, c)
  {
    assert Printed(w, c)[|Printed(w, c)| - 1] == if c == "" then w[|w| - 1] else c[|c| - 1];
  }

  /** A stray quote ends the written value early. */
  lemma StrayQuoteCuts(v: string, c: string)
    requires CommentShape(c) && !NoStrayQuote(v)
    ensures var w, text := Written(true, v), Printed(Written(true, v), c);
            var end := Find(text, '"', 1);
            1 <= end < |w| - 1 && SplitValueComment(text).0 == text[..end + 1] == w[..end + 1]
  {
    var w := Written(true, v);
    PrintedIsStripped(w, c);
    var k :| 0 <= k < |v| && v[k] == '"';
    assert w[k + 1] == '"';
    QuoteCuts(Printed(w, c), k + 1);
  }

  /** Under a key that is always quoted, the written line reads back as the value that was written
      exactly when the value holds no stray double quote; otherwise part of it is lost. */
  lemma WrittenReadsBackIff(v: string, c: string)
    requires Fits(v, c)
    ensures SplitValueComment(Printed(Written(true, v), c)).0 == Written(true, v) <==> NoStrayQuote(v)
  {
    if NoStrayQuote(v) {
      WrittenFits(v, c);
      PrintedSplits(Written(true, v), c);
    } else {
      StrayQuoteCuts(v, c);
    }
  }

  lemma QuotedRoundTripIff(raw: string)
    ensures var (v, c) := SplitValueComment(raw);
            SplitValueComment(Printed(Written(true, v), c)) == (Written(true, v), c) <==> NoStrayQuote(v)
  {
    var (v, c) := SplitValueComment(raw);
    SplitFits(raw);
    WrittenReadsBackIff(v, c);
    if NoStrayQuote(v) {
      WrittenFits(v, c);
      PrintedSplits(Written(true, v), c);
    }
  }

  /** Cut at a stray quote, the line is not printed the same way again. */
  lemma StrayQuoteChangesLine(v: string, c: string)
    requires Fits(v, c) && !NoStrayQuote(v)
    ensures var (value, comment) := SplitValueComment(Printed(Written(true, v), c));
            Printed(Written(true, value), comment) != Printed(Written(true, v), c)
  {
    var text := Printed(Written(true, v), c);
    var (value, comment) := SplitValueComment(text);
    SplitFits(text);
    StrayQuoteCuts(v, c);
    CutIsNotComment(v, c, value, comment);
  }

  lemma CutIsNotComment(v: string, c: string, value: string, comment: string)
    requires Bare(v) && !AlreadyQuoted(v) && CommentShape(comment)
    requires var w := "\"" + v + "\""; 2 <= |value| < |w| && value == w[..|value|] && value[|value| - 1] == '"'
    ensures Printed(Written(true, value), comment) != Printed("\"" + v + "\"", c)
  {
    var w, n := "\"" + v + "\"", |value|;
    var text, again := Printed(w, c), Printed(value, comment);
    assert Written(true, value) == value && w <= text;
    if comment != "" && again == text {
      assert again[n] == ' ' && again[n + 1] == ' ' && again[n + 2] == '#';
      assert text[n] == w[n] && text[|w| - 1] == '"';
      assert n + 2 < |w| - 1;
      assert w[n] == v[n - 1] && w[n + 1] == v[n] && w[n + 2] == v[n + 1];
      assert CommentAt(v, n);
    }
  }

  /** A comment is read back exactly when the value does not swallow it. */
  lemma CommentReadsBackIff(w: string, c: string)
    requires ValueShape(w) && CommentShape(c)
    ensures SplitValueComment(Printed(w, c)).1 == c <==> !Swallows(w, c)
  {
    if Swallows(w, c) {
      SwallowedIsShorter(w, c);
    } else {
      PrintedSplits(w, c);
    }
  }

  lemma SwallowedIsShorter(w: string, c: string)
    requires Bare(w) && CommentShape(c) && Swallows(w, c)
    ensures |SplitValueComment(Printed(w, c)).1| < |c|
  {
    var text := Printed(w, c);
    PrintedIsStripped(w, c);
    var k :| 0 <= k < |c| && c[k] == w[0];
    assert text[|w| + 2 + k] == w[0];
    var end := Find(text, w[0], 1);
    assert end >= |w| + 2;
    assert text[|w| + 2] == c[0] == '#';
    CommentAfterQuote(text, end);
  }

  /** The comment of a quoted value is no longer than what follows the closing quote. */
  lemma CommentAfterQuote(text: string, end: nat)
    requires Stripped(text) && IsQuote(text[0]) && Find(text, text[0], 1) == end
    ensures |SplitValueComment(text).1| <= |text| - end - 1
  {
    StripShape(text);
    var rest := text[end + 1..];
    var hash := Find(rest, '#', 0);
    if hash != -1 { StripShorter(rest[hash..]); }
  }

  lemma StripShorter(s: string)
    ensures |Strip(s)| <= |s|
  {
    LStripIsSuffix(s);
    RStripIsPrefix(LStrip(s));
  }

  /** A value and a comment taken from two different lines need not fit together: an unclosed opening
      quote finds its partner in the comment. A file that assigns one key twice pairs them that way. */
  lemma CrossedCommentChangesValue()
    ensures SplitValueComment("x  #\"") == ("x", "#\"") && SplitValueComment("\"a") == ("\"a", "")
    ensures SplitValueComment(Printed("\"a", "#\"")) == ("\"a  #\"", "")
  {
    PlainSplits("x", "#\"", "x  #\"");
    OpenSplits("\"a", "\"a");
    QuotedSplits("\"a  #\"", Printed("\"a", "#\""));
  }

  lemma PlainSplits(v: string, c: string, text: string)
    requires v == "x" && c == "#\"" && text == "x  #\""
    ensures SplitValueComment(text) == (v, c)
  {
    assert text == Printed(v, c);
    PrintedSplits(v, c);
  }

  lemma OpenSplits(v: string, text: string)
    requires v == text == "\"a"
    ensures SplitValueComment(text) == (v, "")
  {
    PrintedSplits(v, "");
  }

  lemma QuotedSplits(v: string, text: string)
    requires v == "\"a  #\"" && text == Printed("\"a", "#\"")
    ensures SplitValueComment(text) == (v, "")
  {
    assert text == v && Closed(v);
    PrintedSplits(v, "");
  }
}
