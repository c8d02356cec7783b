/** Whole dotenv files: parsing, planning and re-writing one while every default is accepted. */
module EnvFile {
  import opened Wrappers
  import opened EnvText

  datatype Entry = Raw(text: string) | Kv(key: string, value: string, comment: string)

  const QUOTED_KEYS: set<string> := {
    "BROKER_API_KEY", "NATS_TOKEN", "NATS_SUBJECTS", "CRYPTO_API_KEY", "CRYPTO_API_SECRET", "CRYPTO_ACCOUNT_ID",
    "TELEGRAM_BOT_TOKEN", "TELEGRAM_WORKER_LOG_CHAT_IDS", "TELEGRAM_PRIVATE_BROADCAST_CHAT_IDS",
    "TELEGRAM_LOG_BOT_TOKEN", "TELEGRAM_LOG_CHAT_ID", "CRYPTO_LEVERAGE_INIT_SYMBOLS"}

  /** The fixed answers of a menu question; no answers for a free-text question. */
  function Choices(key: string): seq<string> {
    if key == "MARKET_TYPE" then ["FOREX", "CRYPTO"]
    else if key == "NOTIFICATION_MODE" then ["VERBOSE", "SILENT", "ERROR"]
    else []
  }

  predicate KeyStart(c: char) { 'A' <= c <= 'Z' || 'a' <= c <= 'z' || c == '_' }

  predicate IsKey(s: string) {
    s != [] && KeyStart(s[0]) && forall i :: 0 <= i < |s| ==> KeyStart(s[i]) || '0' <= s[i] <= '9'
  }

  function ParseLine(line: string): Entry {
    var eq := Find(line, '=', 0);
    if eq > 0 && IsKey(line[..eq]) then
      var (value, comment) := SplitValueComment(line[eq + 1..]);
      Kv(line[..eq], value, comment)
    else Raw(line)
  }

  function Parse(lines: seq<string>): (entries: seq<Entry>)
    ensures |entries| == |lines| && forall i :: 0 <= i < |lines| ==> entries[i] == ParseLine(lines[i])
  {
    if lines == [] then [] else [ParseLine(lines[0])] + Parse(lines[1..])
  }

  /** The value a file gives to `key`: its last assignment counts. */
  function ValueOf(entries: seq<Entry>, key: string): Option<string> {
    if entries == [] then None
    else
      var e := entries[|entries| - 1];
      if e.Kv? && e.key == key then Some(e.value) else ValueOf(entries[..|entries| - 1], key)
  }

  /** The answer recorded when the question about `key` is answered with an empty line. */
  function AcceptDefault(key: string, default: string): string {
    var options := Choices(key);
    if options != [] && default !in options then options[0] else default
  }

  /** The value written for `key` by a run that accepts every default. */
  function Chosen(base: seq<Entry>, example: seq<Entry>, key: string): string {
    AcceptDefault(key, ValueOf(base, key).GetOr(ValueOf(example, key).GetOr("")))
  }

  /** The template's assignments whose key the edited file lacks. */
  function ExampleOnly(base: seq<Entry>, example: seq<Entry>): (r: seq<Entry>)
    ensures forall e :: e in r <==> e in example && e.Kv? && ValueOf(base, e.key).None?
  {
    if example == [] then []
    else
      (if example[0].Kv? && ValueOf(base, example[0].key).None? then [example[0]] else [])
      + ExampleOnly(base, example[1..])
  }

  function FormatKv(key: string, value: string, comment: string): string {
    key + "=" + Printed(Written(key in QUOTED_KEYS, value), comment)
  }

  function RenderEntry(base: seq<Entry>, example: seq<Entry>, e: Entry): string {
    if e.Raw? then e.text else FormatKv(e.key, Chosen(base, example, e.key), e.comment)
  }

  function RenderAll(base: seq<Entry>, example: seq<Entry>, es: seq<Entry>): (lines: seq<string>)
    ensures |lines| == |es|
    ensures forall i :: 0 <= i < |es| ==> lines[i] == RenderEntry(base, example, es[i])
  {
    seq(|es|, i requires 0 <= i < |es| => RenderEntry(base, example, es[i]))
  }

  /** The comment lines put in front of newly introduced keys. */
  const SECTION_RULE: string := "# " + "─────────────────────────────────────────────────────────────────"

  const HEADER: seq<string> := [
    "", SECTION_RULE, "# " + "Added from .env.example (new keys not in your previous .env)", SECTION_RULE]

  /** The text is joined by line breaks, its trailing line breaks are dropped and one is put back. */
  function DropTrailingBlank(lines: seq<string>): seq<string> {
    if |lines| > 1 && lines[|lines| - 1] == "" then DropTrailingBlank(lines[..|lines| - 1])
    else if lines == [] then [""]
    else lines
  }

  /** The edited file's entries, then the header and the template's new keys when there are any. */
  function Layout(header: seq<string>, base: seq<Entry>, example: seq<Entry>): seq<Entry> {
    var extra := ExampleOnly(base, example);
    if extra == [] then base else base + Parse(header) + extra
  }

  function Render(header: seq<string>, base: seq<Entry>, example: seq<Entry>): seq<string> {
    DropTrailingBlank(RenderAll(base, example, Layout(header, base, example)))
  }

  /** One run over the lines of the current file, every default accepted. A first run, with no
      current file, edits the template itself. */
  function Rerun(header: seq<string>, example: seq<string>, lines: seq<string>): seq<string> {
    Render(header, Parse(lines), Parse(example))
  }

  // ----- the loop that builds the entries and the map

  lemma ParseLonger(lines: seq<string>, i: nat)
    requires i < |lines|
    ensures Parse(lines[..i + 1]) == Parse(lines[..i]) + [ParseLine(lines[i])]
  {
  }

  lemma ValueOfLonger(entries: seq<Entry>, e: Entry)
    ensures forall key :: ValueOf(entries + [e], key) == if e.Kv? && e.key == key then Some(e.value) else ValueOf(entries, key)
  {
    assert (entries + [e])[..|entries|] == entries;
  }

  /** The file's entries in order, and its key-to-value map. */
  method ParseEnv(lines: seq<string>) returns (entries: seq<Entry>, values: map<string, string>)
    ensures entries == Parse(lines)
    ensures forall key :: key in values <==> ValueOf(entries, key).Some?
    ensures forall key :: key in values ==> ValueOf(entries, key) == Some(values[key])
  {
    entries, values := [], map[];
    for i := 0 to |lines|
      invariant entries == Parse(lines[..i])
      invariant forall key :: key in values <==> ValueOf(entries, key).Some?
      invariant forall key :: key in values ==> ValueOf(entries, key) == Some(values[key])
    {
      var e := ParseLine(lines[i]);
      ParseLonger(lines, i);
      ValueOfLonger(entries, e);
      entries := entries + [e];
      if e.Kv? {
        values := values[e.key := e.value];
      }
    }
    assert lines[..|lines|] == lines;
  }

  lemma RenderAppend(base: seq<Entry>, example: seq<Entry>, a: seq<Entry>, b: seq<Entry>)
    ensures RenderAll(base, example, a + b) == RenderAll(base, example, a) + RenderAll(base, example, b)
  {
  }

  lemma RenderNext(base: seq<Entry>, example: seq<Entry>, es: seq<Entry>, i: nat)
    requires i < |es|
    ensures RenderAll(base, example, es[..i + 1]) == RenderAll(base, example, es[..i]) + [RenderEntry(base, example, es[i])]
  {
  }

  lemma RenderHeader(base: seq<Entry>, example: seq<Entry>, header: seq<string>)
    requires CommentsOnly(header)
    ensures RenderAll(base, example, Parse(header)) == header
  {
    forall i | 0 <= i < |header| ensures RenderEntry(base, example, Parse(header)[i]) == header[i] {
      assert header[i] in header;
    }
  }

  method RenderEntries(base: seq<Entry>, example: seq<Entry>, es: seq<Entry>) returns (lines: seq<string>)
    ensures lines == RenderAll(base, example, es)
  {
    lines := [];
    for i := 0 to |es|
      invariant lines == RenderAll(base, example, es[..i])
    {
      RenderNext(base, example, es, i);
      lines := lines + [RenderEntry(base, example, es[i])];
    }
    assert es[..|es|] == es;
  }

  /** The lines of the new file: the edited entries, then the header and the new keys when there are any. */
  method RenderFile(header: seq<string>, base: seq<Entry>, example: seq<Entry>) returns (lines: seq<string>)
    requires CommentsOnly(header)
    ensures lines == RenderAll(base, example, Layout(header, base, example))
  {
    var extra := ExampleOnly(base, example);
    lines := RenderEntries(base, example, base);
    if extra != [] {
      var added := RenderEntries(base, example, extra);
      lines := lines + header + added;
      RenderHeader(base, example, header);
      RenderAppend(base, example, base, Parse(header));
      RenderAppend(base, example, base + Parse(header), extra);
    }
  }

  // ----- what a run keeps

  /** No value of an always-quoted key holds a stray double quote. */
  predicate CleanQuotes(es: seq<Entry>) {
    forall e :: e in es && e.Kv? && e.key in QUOTED_KEYS ==> NoStrayQuote(e.value)
  }

  /** The last assignment of `key`: its value counts, and its comment stays beside it. */
  function LastOf(es: seq<Entry>, key: string): (r: Option<Entry>)
    ensures r.Some? ==> r.value in es && r.value.Kv? && r.value.key == key
    ensures ValueOf(es, key) == if r.None? then None else Some(r.value.value)
    ensures r.None? ==> forall e :: e in es && e.Kv? ==> e.key != key
  {
    if es == [] then None
    else
      var n := |es| - 1;
      assert es == es[..n] + [es[n]];
      if es[n].Kv? && es[n].key == key then Some(es[n]) else LastOf(es[..n], key)
  }

  lemma {:induction false} LastAppend(a: seq<Entry>, b: seq<Entry>, key: string)
    ensures LastOf(a + b, key) == if LastOf(b, key).Some? then LastOf(b, key) else LastOf(a, key)
  {
    if b == [] {
      assert a + b == a;
    } else {
      assert (a + b)[..|a + b| - 1] == a + b[..|b| - 1];
      LastAppend(a, b[..|b| - 1], key);
    }
  }

  lemma {:induction false} LastOfExtra(base: seq<Entry>, example: seq<Entry>, key: string)
    ensures LastOf(ExampleOnly(base, example), key) == if ValueOf(base, key).Some? then None else LastOf(example, key)
  {
    if example != [] {
      var head := if example[0].Kv? && ValueOf(base, example[0].key).None? then [example[0]] else [];
      LastOfExtra(base, example[1..], key);
      LastAppend(head, ExampleOnly(base, example[1..]), key);
      LastAppend([example[0]], example[1..], key);
      assert [example[0]] + example[1..] == example;
      assert [example[0]][..0] == [];
    }
  }

  lemma ParsedEntry(lines: seq<string>, e: Entry)
    requires e in Parse(lines)
    ensures e.Kv? ==> IsKey(e.key) && Fits(e.value, e.comment)
    ensures e.Raw? ==> ParseLine(e.text) == e
  {
    var i :| 0 <= i < |lines| && Parse(lines)[i] == e;
    var eq := Find(lines[i], '=', 0);
    if e.Kv? {
      SplitFits(lines[i][eq + 1..]);
    }
  }

  lemma AssignmentParses(key: string, text: string)
    requires IsKey(key)
    ensures var (v, c) := SplitValueComment(text); ParseLine(key + "=" + text) == Kv(key, v, c)
  {
    var line := key + "=" + text;
    assert line[|key|] == '=' && line[..|key|] == key && line[|key| + 1..] == text;
    assert forall k :: 0 <= k < |key| ==> line[k] == key[k] && line[k] != '=';
  }

  /** An ASCII letter or underscore, then those and digits. */
  predicate IsName(s: string) {
    && s != "" && !(48 <= s[0] as int <= 57)
    && forall i :: 0 <= i < |s| ==>
      var c := s[i] as int;
      65 <= c <= 90 || 97 <= c <= 122 || c == 95 || 48 <= c <= 57
  }

  lemma IsNameIff(s: string)
    ensures IsKey(s) <==> IsName(s)
  {
  }

  /** A name holds no equals sign, so the one behind it is the line's first. */
  lemma NameEndsAtFirst(line: string, n: nat)
    requires n < |line| && line[n] == '=' && IsName(line[..n])
    ensures Find(line, '=', 0) == n && n > 0 && IsKey(line[..n])
  {
    IsNameIff(line[..n]);
    assert forall k :: 0 <= k < n ==> line[..n][k] == line[k];
  }

  /** A name behind which the first equals sign follows makes the line an assignment of the rest, split in two. */
  lemma NamedLineIsAssignment(line: string, n: nat)
    requires n < |line| && line[n] == '=' && IsName(line[..n])
    ensures var (value, comment) := SplitValueComment(line[n + 1..]); ParseLine(line) == Kv(line[..n], value, comment)
  {
    NameEndsAtFirst(line, n);
  }

  /** Any other line is kept as it is. */
  lemma OtherLineIsRaw(line: string)
    requires forall n :: 0 <= n < |line| && line[n] == '=' ==> !IsName(line[..n])
    ensures ParseLine(line) == Raw(line)
  {
    var eq := Find(line, '=', 0);
    if eq > 0 { IsNameIff(line[..eq]); }
  }

  /** A header of comments: no line of it is an assignment. */
  predicate CommentsOnly(header: seq<string>) {
    forall line :: line in header ==> ParseLine(line).Raw?
  }

  lemma CommentIsRaw(line: string)
    requires line == "" || line[0] == '#'
    ensures ParseLine(line).Raw?
  {
  }

  lemma HeaderIsComments()
    ensures CommentsOnly(HEADER)
  {
    assert SECTION_RULE[0] == '#' && HEADER[2][0] == '#';
    forall i | 0 <= i < |HEADER| ensures ParseLine(HEADER[i]).Raw? { CommentIsRaw(HEADER[i]); }
  }

  // ----- the layout and its last assignments

  /** The layout of a run over these files. */
  function LayoutOf(header: seq<string>, example: seq<string>, lines: seq<string>): seq<Entry> {
    Layout(header, Parse(lines), Parse(example))
  }

  /** The value the run writes for a key, quotes added where the key needs them. */
  function WrittenFor(example: seq<string>, lines: seq<string>, key: string): string {
    Written(key in QUOTED_KEYS, Chosen(Parse(lines), Parse(example), key))
  }

  /** What a parsed entry is like: an assignment holds a pair that fits, another line is no assignment. */
  predicate Proper(e: Entry) {
    if e.Kv? then IsKey(e.key) && Fits(e.value, e.comment) else ParseLine(e.text) == e
  }

  lemma LayoutIsProper(header: seq<string>, example: seq<string>, lines: seq<string>)
    requires CommentsOnly(header)
    ensures forall e :: e in LayoutOf(header, example, lines) ==> Proper(e)
  {
    var base, template := Parse(lines), Parse(example);
    forall e | e in LayoutOf(header, example, lines) ensures Proper(e) {
      if e in base {
        ParsedEntry(lines, e);
      } else if e in Parse(header) {
        var i :| 0 <= i < |header| && Parse(header)[i] == e;
        assert header[i] in header;
      } else {
        ParsedEntry(example, e);
      }
    }
  }

  /** The layout's last assignment of a key is the edited file's, else the template's. */
  lemma LayoutLast(header: seq<string>, example: seq<string>, lines: seq<string>, key: string)
    requires CommentsOnly(header)
    ensures LastOf(LayoutOf(header, example, lines), key) ==
            if LastOf(Parse(lines), key).Some? then LastOf(Parse(lines), key) else LastOf(Parse(example), key)
  {
    var base, template := Parse(lines), Parse(example);
    var extra := ExampleOnly(base, template);
    LastOfExtra(base, template, key);
    forall e | e in Parse(header) ensures e.Raw? {
      var i :| 0 <= i < |header| && Parse(header)[i] == e;
      assert header[i] in header;
    }
    assert LastOf(Parse(header), key).None?;
    LastAppend(base, Parse(header), key);
    LastAppend(base + Parse(header), extra, key);
  }

  lemma MenuAnswerFits(key: string, v: string, c: string)
    requires Fits(v, c)
    ensures Fits(AcceptDefault(key, v), c)
    ensures AcceptDefault(key, v) != v ==> key !in QUOTED_KEYS
  {
    var a := AcceptDefault(key, v);
    if a != v {
      assert a == "FOREX" || a == "VERBOSE";
      forall k | 0 <= k < |a| ensures !CommentAt(a, k) {
        assert !IsSpace(a[k]);
      }
      assert Bare(a);
    }
  }

  /** The value chosen for a key fits the comment of the key's last assignment. */
  lemma ChosenFitsLast(header: seq<string>, example: seq<string>, lines: seq<string>, key: string)
    requires CommentsOnly(header) && LastOf(LayoutOf(header, example, lines), key).Some?
    ensures Fits(Chosen(Parse(lines), Parse(example), key), LastOf(LayoutOf(header, example, lines), key).value.comment)
  {
    LayoutLast(header, example, lines, key);
    LayoutIsProper(header, example, lines);
    var e := LastOf(LayoutOf(header, example, lines), key).value;
    MenuAnswerFits(key, e.value, e.comment);
  }

  // ----- what the written file assigns

  /** How the line of an entry is read back. */
  function ReadBack(base: seq<Entry>, example: seq<Entry>, e: Entry): Entry {
    if e.Raw? then e
    else
      var (value, comment) := SplitValueComment(Printed(Written(e.key in QUOTED_KEYS, Chosen(base, example, e.key)), e.comment));
      Kv(e.key, value, comment)
  }

  lemma EntryReadsBack(base: seq<Entry>, example: seq<Entry>, e: Entry)
    requires Proper(e)
    ensures ParseLine(RenderEntry(base, example, e)) == ReadBack(base, example, e)
  {
    if e.Kv? { AssignmentParses(e.key, Printed(Written(e.key in QUOTED_KEYS, Chosen(base, example, e.key)), e.comment)); }
  }

  /** Trailing blank lines are dropped and nothing else; an empty text is one blank line. */
  lemma {:induction false} DropKeepsText(s: seq<string>)
    ensures var r := DropTrailingBlank(s);
            && DropTrailingBlank(r) == r
            && (s != [] ==> |r| <= |s| && r == s[..|r|] && forall i :: |r| <= i < |s| ==> s[i] == "")
            && (s == [] ==> r == [""])
            && r != [] && (|r| > 1 ==> r[|r| - 1] != "")
  {
    if |s| > 1 && s[|s| - 1] == "" {
      DropKeepsText(s[..|s| - 1]);
    }
  }

  /** Line by line, the written file reads back as its layout does, trailing blank lines aside. */
  ghost predicate LineByLine(base: seq<Entry>, template: seq<Entry>, all: seq<Entry>, out: seq<Entry>) {
    && (forall i :: 0 <= i < |out| ==> if i < |all| then out[i] == ReadBack(base, template, all[i]) else out[i].Raw?)
    && (forall i :: |out| <= i < |all| ==> all[i].Raw?)
  }

  lemma LayoutReadsBack(base: seq<Entry>, template: seq<Entry>, all: seq<Entry>)
    requires forall e :: e in all ==> Proper(e)
    ensures forall i :: 0 <= i < |all| ==> ParseLine(RenderAll(base, template, all)[i]) == ReadBack(base, template, all[i])
  {
    forall i | 0 <= i < |all| ensures ParseLine(RenderAll(base, template, all)[i]) == ReadBack(base, template, all[i]) {
      EntryReadsBack(base, template, all[i]);
    }
  }

  lemma WrittenLines(header: seq<string>, example: seq<string>, lines: seq<string>)
    requires CommentsOnly(header)
    ensures LineByLine(Parse(lines), Parse(example), LayoutOf(header, example, lines), Parse(Rerun(header, example, lines)))
  {
    var base, template, all := Parse(lines), Parse(example), LayoutOf(header, example, lines);
    LayoutIsProper(header, example, lines);
    LayoutReadsBack(base, template, all);
    WithoutTrailingBlanks(RenderAll(base, template, all));
  }

  /** Dropping trailing blank lines drops comments only, and leaves at most one blank line of its own. */
  lemma WithoutTrailingBlanks(text: seq<string>)
    ensures var out := Parse(DropTrailingBlank(text));
            && (forall i :: 0 <= i < |out| ==> if i < |text| then out[i] == ParseLine(text[i]) else out[i].Raw?)
            && (forall i :: |out| <= i < |text| ==> ParseLine(text[i]).Raw?)
  {
    DropKeepsText(text);
    CommentIsRaw("");
  }

  lemma {:induction false} LastReadBack(base: seq<Entry>, template: seq<Entry>, all: seq<Entry>, out: seq<Entry>, key: string)
    requires LineByLine(base, template, all, out)
    ensures LastOf(out, key) == if LastOf(all, key).None? then None else Some(ReadBack(base, template, LastOf(all, key).value))
    decreases |all| + |out|
  {
    if |out| > |all| {
      LastReadBack(base, template, all, out[..|out| - 1], key);
    } else if |out| < |all| {
      LastReadBack(base, template, all[..|all| - 1], out, key);
    } else if all != [] {
      LastReadBack(base, template, all[..|all| - 1], out[..|out| - 1], key);
    }
  }

  /** The value the written file gives to a key: the chosen one, as its last line reads back. */
  lemma RerunValue(header: seq<string>, example: seq<string>, lines: seq<string>, key: string)
    requires CommentsOnly(header)
    ensures var last := LastOf(LayoutOf(header, example, lines), key);
            ValueOf(Parse(Rerun(header, example, lines)), key) ==
            if last.None? then None
            else Some(SplitValueComment(Printed(WrittenFor(example, lines, key), last.value.comment)).0)
  {
    WrittenLines(header, example, lines);
    LastReadBack(Parse(lines), Parse(example), LayoutOf(header, example, lines), Parse(Rerun(header, example, lines)), key);
  }

  /** The key needs no quotes, or its chosen value holds no stray one. */
  predicate ChosenIsClean(example: seq<string>, lines: seq<string>, key: string) {
    key in QUOTED_KEYS ==> NoStrayQuote(Chosen(Parse(lines), Parse(example), key))
  }

  predicate Assigned(example: seq<string>, lines: seq<string>, key: string) {
    ValueOf(Parse(lines), key).Some? || ValueOf(Parse(example), key).Some?
  }

  /** Accepting every default gives a known key the value that was chosen, in any file and however often
      it assigns its keys, exactly when that value holds no stray quote under an always-quoted key. */
  lemma ChosenIsWrittenIff(header: seq<string>, example: seq<string>, lines: seq<string>, key: string)
    requires CommentsOnly(header) && Assigned(example, lines, key)
    ensures ValueOf(Parse(Rerun(header, example, lines)), key) == Some(WrittenFor(example, lines, key))
            <==> ChosenIsClean(example, lines, key)
  {
    var last := LastOf(LayoutOf(header, example, lines), key);
    var v := Chosen(Parse(lines), Parse(example), key);
    LayoutLast(header, example, lines, key);
    RerunValue(header, example, lines, key);
    ChosenFitsLast(header, example, lines, key);
    if key in QUOTED_KEYS {
      WrittenReadsBackIff(v, last.value.comment);
    } else {
      PrintedSplits(v, last.value.comment);
    }
  }

  /** Accepting every default writes each known key with the value it had: the file's own, else the
      template's, a menu answer that is not on the menu becoming its first option; only the quotes
      around an always-quoted value may be new, and no other key appears. */
  lemma RerunKeepsValues(header: seq<string>, example: seq<string>, lines: seq<string>, key: string)
    requires CommentsOnly(header) && CleanQuotes(Parse(lines)) && CleanQuotes(Parse(example))
    ensures ValueOf(Parse(Rerun(header, example, lines)), key) ==
            if Assigned(example, lines, key) then Some(WrittenFor(example, lines, key)) else None
  {
    if Assigned(example, lines, key) {
      CleanFileIsClean(example, lines, key);
      ChosenIsWrittenIff(header, example, lines, key);
    } else {
      LayoutLast(header, example, lines, key);
      RerunValue(header, example, lines, key);
    }
  }

  lemma CleanFileIsClean(example: seq<string>, lines: seq<string>, key: string)
    requires CleanQuotes(Parse(lines)) && CleanQuotes(Parse(example)) && Assigned(example, lines, key)
    ensures ChosenIsClean(example, lines, key)
  {
    if key in QUOTED_KEYS {
      var e := if LastOf(Parse(lines), key).Some? then LastOf(Parse(lines), key).value else LastOf(Parse(example), key).value;
      QuotedHasNoMenu(key);
      assert Chosen(Parse(lines), Parse(example), key) == e.value;
      assert e.Kv? && e.key == key && (e in Parse(lines) || e in Parse(example));
    }
  }

  lemma QuotedHasNoMenu(key: string)
    requires key in QUOTED_KEYS
    ensures Choices(key) == []
  {
  }

  /** The answers a menu question accepts; any other question accepts everything. */
  predicate OnMenu(key: string, v: string) {
    && (key == "MARKET_TYPE" ==> v == "FOREX" || v == "CRYPTO")
    && (key == "NOTIFICATION_MODE" ==> v == "VERBOSE" || v == "SILENT" || v == "ERROR")
  }

  /** Which values of the edited file survive: all but a menu value that is not on the menu, which becomes FOREX or
      VERBOSE. */
  lemma ValueSurvivesIff(header: seq<string>, example: seq<string>, lines: seq<string>, key: string)
    requires CommentsOnly(header) && CleanQuotes(Parse(lines)) && CleanQuotes(Parse(example))
    requires ValueOf(Parse(lines), key).Some?
    ensures var v, written := ValueOf(Parse(lines), key).value, ValueOf(Parse(Rerun(header, example, lines)), key);
      && (written == Some(Written(key in QUOTED_KEYS, v)) <==> OnMenu(key, v))
      && (!OnMenu(key, v) ==> written == Some(if key == "MARKET_TYPE" then "FOREX" else "VERBOSE"))
  {
    RerunKeepsValues(header, example, lines, key);
    WrittenChosenIff(Parse(lines), Parse(example), key, ValueOf(Parse(lines), key).value);
  }

  lemma WrittenChosenIff(base: seq<Entry>, example: seq<Entry>, key: string, v: string)
    requires ValueOf(base, key) == Some(v)
    ensures var written := Written(key in QUOTED_KEYS, Chosen(base, example, key));
      && (written == Written(key in QUOTED_KEYS, v) <==> OnMenu(key, v))
      && (!OnMenu(key, v) ==> written == if key == "MARKET_TYPE" then "FOREX" else "VERBOSE")
  {
    assert Choices(key) != [] ==> key !in QUOTED_KEYS;
  }

  // ----- when a second run changes nothing

  /** The line of an assignment reads back whole: its value holds no stray quote, and does not open a
      quote that the comment closes. */
  predicate ReadsBackWhole(example: seq<string>, lines: seq<string>, e: Entry) {
    e.Kv? ==> ChosenIsClean(example, lines, e.key) && !Swallows(WrittenFor(example, lines, e.key), e.comment)
  }

  lemma {:induction false} NothingExtra(base: seq<Entry>, example: seq<Entry>)
    requires forall e :: e in example && e.Kv? ==> ValueOf(base, e.key).Some?
    ensures ExampleOnly(base, example) == []
  {
    if example != [] { NothingExtra(base, example[1..]); }
  }

  /** After one run no key of the template is missing. */
  lemma NothingLeftToAppend(header: seq<string>, example: seq<string>, lines: seq<string>)
    requires CommentsOnly(header)
    ensures ExampleOnly(Parse(Rerun(header, example, lines)), Parse(example)) == []
  {
    var template, again := Parse(example), Parse(Rerun(header, example, lines));
    forall e | e in template && e.Kv? ensures ValueOf(again, e.key).Some? {
      RerunValue(header, example, lines, e.key);
      LayoutLast(header, example, lines, e.key);
      assert LastOf(template, e.key).Some?;
    }
    NothingExtra(again, template);
  }

  /** The second run re-writes the first run's lines one by one. */
  lemma RerunTwice(header: seq<string>, example: seq<string>, lines: seq<string>)
    requires CommentsOnly(header)
    ensures var once := Rerun(header, example, lines);
            Rerun(header, example, once) == once <==>
            forall i :: 0 <= i < |once| ==> RenderEntry(Parse(once), Parse(example), ParseLine(once[i])) == once[i]
  {
    var once := Rerun(header, example, lines);
    NothingLeftToAppend(header, example, lines);
    DropKeepsText(RenderAll(Parse(lines), Parse(example), LayoutOf(header, example, lines)));
    RenderedAgain(Parse(example), once);
  }

  lemma RenderedAgain(template: seq<Entry>, once: seq<string>)
    requires |once| >= 1 && DropTrailingBlank(once) == once
    ensures DropTrailingBlank(RenderAll(Parse(once), template, Parse(once))) == once <==>
            forall i :: 0 <= i < |once| ==> RenderEntry(Parse(once), template, ParseLine(once[i])) == once[i]
  {
    var again := Parse(once);
    var twice := RenderAll(again, template, again);
    SameTextOnlyIfEqual(once, twice);
    assert forall i :: 0 <= i < |once| ==> twice[i] == RenderEntry(again, template, ParseLine(once[i]));
  }

  lemma SameTextOnlyIfEqual(once: seq<string>, twice: seq<string>)
    requires |twice| == |once| >= 1 && DropTrailingBlank(once) == once
    ensures DropTrailingBlank(twice) == once <==> forall i :: 0 <= i < |once| ==> twice[i] == once[i]
  {
    DropKeepsText(twice);
    if forall i :: 0 <= i < |once| ==> twice[i] == once[i] { assert twice == once; }
  }

  /** A line re-written from what it reads back as, when the key's value reads back as it was written. */
  lemma LineIsStableIff(base: seq<Entry>, again: seq<Entry>, template: seq<Entry>, e: Entry)
    requires e.Kv? && CommentShape(e.comment)
    requires var w := Written(e.key in QUOTED_KEYS, Chosen(base, template, e.key)); ValueShape(w) && ValueOf(again, e.key) == Some(w)
    ensures RenderEntry(again, template, ReadBack(base, template, e)) == RenderEntry(base, template, e)
            <==> !Swallows(Written(e.key in QUOTED_KEYS, Chosen(base, template, e.key)), e.comment)
  {
    var w := Written(e.key in QUOTED_KEYS, Chosen(base, template, e.key));
    var comment := SplitValueComment(Printed(w, e.comment)).1;
    ChosenIsStable(base, template, e.key);
    CommentReadsBackIff(w, e.comment);
    PrefixedEqual(e.key + "=", Printed(w, comment), Printed(w, e.comment));
    PrintedComments(w, comment, e.comment);
  }

  lemma PrefixedEqual(prefix: string, a: string, b: string)
    ensures prefix + a == prefix + b <==> a == b
  {
    assert (prefix + a)[|prefix|..] == a && (prefix + b)[|prefix|..] == b;
  }

  lemma PrintedComments(w: string, c: string, d: string)
    ensures Printed(w, c) == Printed(w, d) <==> c == d
  {
    assert c != "" ==> Printed(w, c)[|w| + 2..] == c;
    assert d != "" ==> Printed(w, d)[|w| + 2..] == d;
    assert |Printed(w, c)| == |w| + if c == "" then 0 else |c| + 2;
    assert |Printed(w, d)| == |w| + if d == "" then 0 else |d| + 2;
  }

  lemma ChosenIsStable(base: seq<Entry>, example: seq<Entry>, key: string)
    ensures var w := Written(key in QUOTED_KEYS, Chosen(base, example, key));
            AcceptDefault(key, w) == w && Written(key in QUOTED_KEYS, w) == w
  {
    assert Choices(key) != [] ==> key !in QUOTED_KEYS;
  }

  /** The last line of a key whose chosen value holds a stray quote is changed by the second run. */
  lemma StrayLineChanges(header: seq<string>, example: seq<string>, lines: seq<string>, key: string)
    requires CommentsOnly(header) && Assigned(example, lines, key) && !ChosenIsClean(example, lines, key)
    ensures var e := LastOf(LayoutOf(header, example, lines), key);
            && e.Some?
            && RenderEntry(Parse(Rerun(header, example, lines)), Parse(example), ReadBack(Parse(lines), Parse(example), e.value))
               != RenderEntry(Parse(lines), Parse(example), e.value)
  {
    LayoutLast(header, example, lines, key);
    RerunValue(header, example, lines, key);
    ChosenFitsLast(header, example, lines, key);
    StrayEntryChanges(Parse(lines), Parse(Rerun(header, example, lines)), Parse(example), LastOf(LayoutOf(header, example, lines), key).value);
  }

  lemma StrayEntryChanges(base: seq<Entry>, again: seq<Entry>, template: seq<Entry>, e: Entry)
    requires e.Kv? && e.key in QUOTED_KEYS && Fits(Chosen(base, template, e.key), e.comment) && !NoStrayQuote(Chosen(base, template, e.key))
    requires ValueOf(again, e.key) == Some(ReadBack(base, template, e).value)
    ensures RenderEntry(again, template, ReadBack(base, template, e)) != RenderEntry(base, template, e)
  {
    var v := Chosen(base, template, e.key);
    var back := ReadBack(base, template, e);
    QuotedHasNoMenu(e.key);
    StrayQuoteChangesLine(v, e.comment);
    PrefixedEqual(e.key + "=", Printed(Written(true, back.value), back.comment), Printed(Written(true, v), e.comment));
  }

  lemma CleanValueShape(header: seq<string>, example: seq<string>, lines: seq<string>, key: string)
    requires CommentsOnly(header) && Assigned(example, lines, key) && ChosenIsClean(example, lines, key)
    ensures ValueShape(WrittenFor(example, lines, key))
    ensures ValueOf(Parse(Rerun(header, example, lines)), key) == Some(WrittenFor(example, lines, key))
  {
    LayoutLast(header, example, lines, key);
    ChosenFitsLast(header, example, lines, key);
    ChosenIsWrittenIff(header, example, lines, key);
    var c := LastOf(LayoutOf(header, example, lines), key).value.comment;
    if key in QUOTED_KEYS { WrittenFits(Chosen(Parse(lines), Parse(example), key), c); }
  }

  /** Where each line of the written file comes from. */
  lemma LineOf(header: seq<string>, example: seq<string>, lines: seq<string>, i: nat)
    requires CommentsOnly(header) && i < |Rerun(header, example, lines)|
    ensures var all, once := LayoutOf(header, example, lines), Rerun(header, example, lines);
            if i < |all| then
              once[i] == RenderEntry(Parse(lines), Parse(example), all[i]) && ParseLine(once[i]) == ReadBack(Parse(lines), Parse(example), all[i])
            else once[i] == "" && ParseLine(once[i]) == Raw("")
  {
    var all := LayoutOf(header, example, lines);
    DropKeepsText(RenderAll(Parse(lines), Parse(example), all));
    if i < |all| {
      LayoutIsProper(header, example, lines);
      assert all[i] in all;
      EntryReadsBack(Parse(lines), Parse(example), all[i]);
    }
  }

  lemma LayoutAssigns(header: seq<string>, example: seq<string>, lines: seq<string>, e: Entry)
    requires CommentsOnly(header) && e in LayoutOf(header, example, lines) && e.Kv?
    ensures Assigned(example, lines, e.key) && CommentShape(e.comment)
  {
    LayoutLast(header, example, lines, e.key);
    LayoutIsProper(header, example, lines);
  }

  /** If every assignment reads back whole, the second run writes every line as it is. */
  lemma WholeLinesStay(header: seq<string>, example: seq<string>, lines: seq<string>, i: nat)
    requires CommentsOnly(header) && i < |Rerun(header, example, lines)|
    requires forall e :: e in LayoutOf(header, example, lines) ==> ReadsBackWhole(example, lines, e)
    ensures var once := Rerun(header, example, lines); RenderEntry(Parse(once), Parse(example), ParseLine(once[i])) == once[i]
  {
    var all := LayoutOf(header, example, lines);
    LineOf(header, example, lines, i);
    if i < |all| && all[i].Kv? {
      assert all[i] in all;
      LayoutAssigns(header, example, lines, all[i]);
      CleanValueShape(header, example, lines, all[i].key);
      LineIsStableIff(Parse(lines), Parse(Rerun(header, example, lines)), Parse(example), all[i]);
    }
  }

  /** An entry whose line the second run would write differently. */
  predicate Changes(header: seq<string>, example: seq<string>, lines: seq<string>, e: Entry) {
    RenderEntry(Parse(Rerun(header, example, lines)), Parse(example), ReadBack(Parse(lines), Parse(example), e))
      != RenderEntry(Parse(lines), Parse(example), e)
  }

  lemma BrokenEntryChanges(header: seq<string>, example: seq<string>, lines: seq<string>, e: Entry) returns (broken: Entry)
    requires CommentsOnly(header) && e in LayoutOf(header, example, lines) && !ReadsBackWhole(example, lines, e)
    ensures broken in LayoutOf(header, example, lines) && broken.Kv? && Changes(header, example, lines, broken)
  {
    LayoutAssigns(header, example, lines, e);
    if ChosenIsClean(example, lines, e.key) {
      CleanValueShape(header, example, lines, e.key);
      LineIsStableIff(Parse(lines), Parse(Rerun(header, example, lines)), Parse(example), e);
      broken := e;
    } else {
      StrayLineChanges(header, example, lines, e.key);
      broken := LastOf(LayoutOf(header, example, lines), e.key).value;
    }
  }

  /** An assignment that does not read back whole has a line the second run changes. */
  lemma BrokenLineChanges(header: seq<string>, example: seq<string>, lines: seq<string>, e: Entry)
    requires CommentsOnly(header) && e in LayoutOf(header, example, lines) && !ReadsBackWhole(example, lines, e)
    ensures var once := Rerun(header, example, lines);
            exists i :: 0 <= i < |once| && RenderEntry(Parse(once), Parse(example), ParseLine(once[i])) != once[i]
  {
    var all := LayoutOf(header, example, lines);
    var broken := BrokenEntryChanges(header, example, lines, e);
    var i :| 0 <= i < |all| && all[i] == broken;
    AssignmentIsWritten(header, example, lines, i);
    LineOf(header, example, lines, i);
  }

  /** No assignment is among the blank lines dropped at the end. */
  lemma AssignmentIsWritten(header: seq<string>, example: seq<string>, lines: seq<string>, i: nat)
    requires CommentsOnly(header) && i < |LayoutOf(header, example, lines)| && LayoutOf(header, example, lines)[i].Kv?
    ensures i < |Rerun(header, example, lines)|
  {
    WrittenLines(header, example, lines);
  }

  /** In any file: a second run that accepts every default changes nothing, exactly when every assignment
      of the layout reads back whole. */
  lemma RerunIsFixedPointIff(header: seq<string>, example: seq<string>, lines: seq<string>)
    requires CommentsOnly(header)
    ensures var once := Rerun(header, example, lines);
            Rerun(header, example, once) == once <==> forall e :: e in LayoutOf(header, example, lines) ==> ReadsBackWhole(example, lines, e)
  {
    var all, once := LayoutOf(header, example, lines), Rerun(header, example, lines);
    RerunTwice(header, example, lines);
    if forall e :: e in all ==> ReadsBackWhole(example, lines, e) {
      forall i | 0 <= i < |once| ensures RenderEntry(Parse(once), Parse(example), ParseLine(once[i])) == once[i] {
        WholeLinesStay(header, example, lines, i);
      }
    } else {
      var e :| e in all && !ReadsBackWhole(example, lines, e);
      BrokenLineChanges(header, example, lines, e);
    }
  }

  predicate DistinctKeys(es: seq<Entry>) {
    forall i, j :: 0 <= i < j < |es| && es[i].Kv? && es[j].Kv? ==> es[i].key != es[j].key
  }

  /** With distinct keys and no stray quote every assignment keeps its own comment, so one run is enough. */
  lemma RerunIsFixedPoint(header: seq<string>, example: seq<string>, lines: seq<string>)
    requires CommentsOnly(header) && CleanQuotes(Parse(lines)) && CleanQuotes(Parse(example))
    requires DistinctKeys(LayoutOf(header, example, lines))
    ensures var once := Rerun(header, example, lines); Rerun(header, example, once) == once
  {
    var all := LayoutOf(header, example, lines);
    forall e | e in all ensures ReadsBackWhole(example, lines, e) {
      if e.Kv? {
        LayoutAssigns(header, example, lines, e);
        CleanFileIsClean(example, lines, e.key);
        ChosenFitsLast(header, example, lines, e.key);
        var last := LastOf(all, e.key).value;
        var i :| 0 <= i < |all| && all[i] == e;
        var j :| 0 <= j < |all| && all[j] == last;
        if e.key in QUOTED_KEYS { WrittenFits(Chosen(Parse(lines), Parse(example), e.key), e.comment); }
      }
    }
    RerunIsFixedPointIff(header, example, lines);
  }

  /** A file that assigns one key twice, the first time beside a comment holding the quote that the last
      value opens: the second run changes it, although no quote in it is stray. */
  lemma RepeatedKeyIsNotFixed(lines: seq<string>, first: string, second: string)
    requires first == "x  #\"" && second == "\"a" && lines == ["K=" + first, "K=" + second]
    ensures CleanQuotes(Parse(lines))
    ensures var once := Rerun([], [], lines); Rerun([], [], once) != once
  {
    var base := Parse(lines);
    RepeatedKeyParses(lines, first, second);
    RepeatedKeySwallows(base);
    RerunIsFixedPointIff([], [], lines);
    NothingExtra(base, Parse([]));
    assert LayoutOf([], [], lines) == base;
    assert base[0] in base && !ReadsBackWhole([], lines, base[0]);
  }

  lemma RepeatedKeyParses(lines: seq<string>, first: string, second: string)
    requires first == "x  #\"" && second == "\"a" && lines == ["K=" + first, "K=" + second]
    ensures Parse(lines) == [Kv("K", "x", "#\""), Kv("K", "\"a", "")]
  {
    CrossedCommentChangesValue();
    LineParses("K", first, lines[0]);
    LineParses("K", second, lines[1]);
  }

  lemma LineParses(key: string, text: string, line: string)
    requires key == "K" && line == "K=" + text
    ensures var (v, c) := SplitValueComment(text); ParseLine(line) == Kv(key, v, c)
  {
    assert line == key + "=" + text;
    assert IsKey(key);
    AssignmentParses(key, text);
  }

  lemma RepeatedKeySwallows(base: seq<Entry>)
    requires base == [Kv("K", "x", "#\""), Kv("K", "\"a", "")]
    ensures "K" !in QUOTED_KEYS && Chosen(base, [], "K") == "\"a" && Swallows("\"a", base[0].comment)
  {
    assert base[0].comment[1] == '"' && base[1].value[0] == '"' && base[1].value[1] == 'a';
    assert ValueOf(base, "K") == Some(base[1].value);
    assert |"K"| == 1;
  }

  /** A quoted market type is not on the menu and is reset to the first option. */
  lemma QuotedMarketTypeIsReset(base: seq<Entry>, example: seq<Entry>)
    requires ValueOf(base, "MARKET_TYPE") == Some("\"CRYPTO\"")
    ensures Chosen(base, example, "MARKET_TYPE") == "FOREX"
  {
    assert "\"CRYPTO\""[0] == '"' && "FOREX"[0] == 'F' && "CRYPTO"[0] == 'C';
  }
}
