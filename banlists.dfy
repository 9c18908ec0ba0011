/**
 * The banlist routes of `banlists.py`: the `.lflist.conf` reader and writer, the
 * deck-versus-banlist check and the restriction-type guard of adding a card.
 * The database lookups (`Card.get_by_id`, `get_max_copies`, `get_card_restriction`)
 * and the date functions (`datetime.fromisoformat`, `strftime`) are parameters.
 */
module Banlists {
  import opened Common
  import opened Text

  /** The four restriction lists of a banlist. */
  datatype Section = Whitelist | Forbidden | Limited | SemiLimited

  /** The fields of a banlist that the file format touches; `D` is the date type. */
  datatype Banlist<D> = Banlist(
    name: string,
    formatType: string,
    isOfficial: bool,
    startDate: Option<D>,
    endDate: Option<D>,
    whitelist: seq<int>,
    forbidden: seq<int>,
    limited: seq<int>,
    semiLimited: seq<int>)
  {
    function Cards(s: Section): seq<int> {
      match s
      case Whitelist => whitelist
      case Forbidden => forbidden
      case Limited => limited
      case SemiLimited => semiLimited
    }

    /** Appends `ids` to list `s`. */
    function Append(s: Section, ids: seq<int>): (r: Banlist<D>)
      ensures r.Cards(s) == Cards(s) + ids
      ensures forall t :: t != s ==> r.Cards(t) == Cards(t)
      ensures r.name == name && r.formatType == formatType && r.isOfficial == isOfficial
      ensures r.startDate == startDate && r.endDate == endDate
    {
      match s
      case Whitelist => this.(whitelist := whitelist + ids)
      case Forbidden => this.(forbidden := forbidden + ids)
      case Limited => this.(limited := limited + ids)
      case SemiLimited => this.(semiLimited := semiLimited + ids)
    }
  }

  /** The banlist `parse_lflist_content` starts from: a custom, unofficial list with nothing in it. */
  function NewBanlist<D>(): Banlist<D> {
    Banlist("", "Custom", false, None, None, [], [], [], [])
  }

  /** The reader's state between lines: the banlist so far and the section being read. */
  datatype ParseState<D> = ParseState(banlist: Banlist<D>, section: Option<Section>)

  /** A `--StartDate` or `--EndDate` line with no space after it: `split(" ", 1)[1]` raises IndexError. */
  datatype ParseError = MissingDateValue(line: string)

  /** The section a header line opens, if it is one. */
  function SectionHeader(line: string): (r: Option<Section>)
    ensures r == Some(Whitelist) <==> StartsWith(line, "$whitelist") || StartsWith(line, "#whitelist")
    ensures r.Some? && r != Some(Whitelist) ==> |line| > 1 && line[0] == '#'
  {
    assert StartsWith(line, "#whitelist") ==> line[1] == 'w';
    assert StartsWith(line, "#semi-limited") ==> line[1] == 's';
    assert StartsWith(line, "#limited") ==> line[1] == 'l';
    assert StartsWith(line, "#forbidden") ==> line[1] == 'f';
    if StartsWith(line, "$whitelist") then Some(Whitelist)
    else if StartsWith(line, "#forbidden") then Some(Forbidden)
    else if StartsWith(line, "#limited") then Some(Limited)
    else if StartsWith(line, "#semi-limited") then Some(SemiLimited)
    else if StartsWith(line, "#whitelist") then Some(Whitelist)
    else None
  }

  /** `line.split(" ", 1)[1].strip()`, or nothing when there is no space. */
  function DateValue(line: string): (v: Option<string>)
    ensures v.None? <==> ' ' !in line
  {
    var parts := SplitMax(line, ' ', 1);
    if |parts| < 2 then None else Some(Trim(parts[1]))
  }

  /** The card id of a line `id limit ...`: both leading fields must be integers. */
  function CardEntry(line: string): (r: Option<int>)
    ensures r.Some? ==> ' ' in line && r == ParseInt(line[..IndexOf(line, ' ')])
  {
    var parts := SplitMax(line, ' ', 2);
    if |parts| >= 2 && ParseInt(parts[0]).Some? && ParseInt(parts[1]).Some? then ParseInt(parts[0]) else None
  }

  /**
   * A card line is read exactly when it has a space, the text before the first space is an
   * integer, and so is the text up to the next space; a line without a space never is.
   */
  lemma CardEntryIff(line: string)
    ensures ' ' !in line ==> CardEntry(line).None?
    ensures ' ' in line ==>
      var i := IndexOf(line, ' ');
      var t := line[i + 1..];
      (CardEntry(line).Some? <==> ParseInt(line[..i]).Some? && ParseInt(t[..IndexOf(t, ' ')]).Some?)
  {
    var i := IndexOf(line, ' ');
    if i < |line| {
      var t := line[i + 1..];
      assert SplitMax(line, ' ', 2) == [line[..i]] + SplitMax(t, ' ', 1);
      assert SplitMax(t, ' ', 1)[0] == t[..IndexOf(t, ' ')];
    } else {
      assert SplitMax(line, ' ', 2) == [line];
    }
  }

  /** What the loop body of `parse_lflist_content` does with a line once it is stripped. */
  function HandleLine<D>(st: ParseState<D>, line: string, parseDate: string -> Option<D>): (r: Result<ParseState<D>, ParseError>)
    ensures r.Ok? ==> r.value.banlist.formatType == st.banlist.formatType && r.value.banlist.isOfficial == st.banlist.isOfficial
  {
    if line == "" then Ok(st)
    else if StartsWith(line, "!") && st.banlist.name == "" then
      Ok(st.(banlist := st.banlist.(name := Trim(line[1..]))))
    else if StartsWith(line, "--StartDate") then
      match DateValue(line)
      case None => Err(MissingDateValue(line))
      case Some(v) =>
        Ok(match parseDate(v) case Some(d) => st.(banlist := st.banlist.(startDate := Some(d))) case None => st)
    else if StartsWith(line, "--EndDate") then
      match DateValue(line)
      case None => Err(MissingDateValue(line))
      case Some(v) =>
        Ok(match parseDate(v) case Some(d) => st.(banlist := st.banlist.(endDate := Some(d))) case None => st)
    else
      match SectionHeader(line)
      case Some(s) => Ok(st.(section := Some(s)))
      case None =>
        if StartsWith(line, "#") || StartsWith(line, "--") || st.section.None? then Ok(st)
        else
          match CardEntry(line)
          case Some(id) => Ok(st.(banlist := st.banlist.Append(st.section.value, [id])))
          case None => Ok(st)
  }

  /** One pass of the loop over a raw line: it is stripped first. */
  function StepLine<D>(st: ParseState<D>, raw: string, parseDate: string -> Option<D>): Result<ParseState<D>, ParseError> {
    HandleLine(st, Trim(raw), parseDate)
  }

  /** A loop over `lines` that stops at the first error. */
  function Fold<S>(step: (S, string) -> Result<S, ParseError>, st: S, lines: seq<string>): Result<S, ParseError>
    decreases |lines|
  {
    if |lines| == 0 then Ok(st)
    else
      match step(st, lines[0])
      case Err(e) => Err(e)
      case Ok(next) => Fold(step, next, lines[1..])
  }

  /** The loop of `parse_lflist_content` over `lines` from state `st`. */
  function Run<D>(st: ParseState<D>, lines: seq<string>, parseDate: string -> Option<D>): Result<ParseState<D>, ParseError> {
    Fold((s: ParseState<D>, l: string) => StepLine(s, l, parseDate), st, lines)
  }

  /** `filename.replace(".lflist.conf", "").replace("_", " ").title()` */
  function DefaultName(filename: string): (r: string)
    ensures |r| == |Replace(filename, ".lflist.conf", "")|
    ensures '_' !in r
  {
    var base := Replace(filename, ".lflist.conf", "");
    ReplaceChar(base, '_', ' ');
    TitleKeepsNonLetters(Replace(base, "_", " "), false);
    Title(Replace(Replace(filename, ".lflist.conf", ""), "_", " "))
  }

  /** `parse_lflist_content` */
  function ParseLflistContent<D>(content: string, filename: string, parseDate: string -> Option<D>): (r: Result<Banlist<D>, ParseError>)
    ensures r.Ok? ==> r.value.formatType == "Custom" && !r.value.isOfficial
    ensures r.Ok? ==> r.value.name != "" || DefaultName(filename) == ""
  {
    match Run(ParseState(NewBanlist(), None), Split(Trim(content), '\n'), parseDate)
    case Err(e) => Err(e)
    case Ok(st) =>
      RunKeepsFormat(ParseState(NewBanlist(), None), Split(Trim(content), '\n'), parseDate);
      Ok(if st.banlist.name == "" then st.banlist.(name := DefaultName(filename)) else st.banlist)
  }

  /** The reader never changes the format type or the official flag. */
  lemma {:induction false} RunKeepsFormat<D>(st: ParseState<D>, lines: seq<string>, parseDate: string -> Option<D>)
    ensures Run(st, lines, parseDate).Ok? ==>
      Run(st, lines, parseDate).value.banlist.formatType == st.banlist.formatType &&
      Run(st, lines, parseDate).value.banlist.isOfficial == st.banlist.isOfficial
    decreases |lines|
  {
    if |lines| > 0 {
      match StepLine(st, lines[0], parseDate)
      case Err(_) =>
      case Ok(next) => RunKeepsFormat(next, lines[1..], parseDate);
    }
  }

  /** `parse_lflist_content` as the loop it is. */
  method ParseLflist<D>(content: string, filename: string, parseDate: string -> Option<D>)
    returns (r: Result<Banlist<D>, ParseError>)
    ensures r == ParseLflistContent(content, filename, parseDate)
  {
    var lines := Split(Trim(content), '\n');
    var st: ParseState<D> := ParseState(NewBanlist(), None);
    var i := 0;
    while i < |lines|
      invariant 0 <= i <= |lines|
      invariant Run(ParseState(NewBanlist(), None), lines, parseDate) == Run(st, lines[i..], parseDate)
    {
      assert lines[i..][0] == lines[i] && lines[i..][1..] == lines[i + 1..];
      var step := StepLine(st, lines[i], parseDate);
      if step.Err? {
        return Err(step.error);
      }
      st := step.value;
      i := i + 1;
    }
    var b := st.banlist;
    if b.name == "" {
      b := b.(name := DefaultName(filename));
    }
    r := Ok(b);
  }

  /** Blank lines, other comments and malformed card lines leave the reader's state alone. */
  lemma IgnoredLine<D>(st: ParseState<D>, line: string, parseDate: string -> Option<D>)
    requires line == "" ||
      (!StartsWith(line, "!") && !StartsWith(line, "--StartDate") && !StartsWith(line, "--EndDate") &&
       SectionHeader(line).None? && (StartsWith(line, "#") || StartsWith(line, "--") || st.section.None? || CardEntry(line).None?))
    ensures HandleLine(st, line, parseDate) == Ok(st)
  {
  }

  /** A second `!` line is not a name: the name is set once. */
  lemma SecondNameIgnored<D>(st: ParseState<D>, line: string, parseDate: string -> Option<D>)
    requires st.banlist.name != "" && StartsWith(line, "!")
    ensures HandleLine(st, line, parseDate).Ok?
    ensures HandleLine(st, line, parseDate).value.banlist.name == st.banlist.name
  {
    assert line[0] == '!';
    assert !StartsWith(line, "--StartDate") && !StartsWith(line, "--EndDate");
    assert !StartsWith(line, "$whitelist") && !StartsWith(line, "#whitelist");
  }

  /** A bare `--StartDate` line stops the reader with an error. */
  lemma BareStartDateFails<D>(st: ParseState<D>, parseDate: string -> Option<D>)
    ensures StepLine(st, "--StartDate", parseDate) == Err(MissingDateValue("--StartDate"))
  {
    assert Trim("--StartDate") == "--StartDate" by {
      TrimOfTrimmed("--StartDate");
    }
    assert "--StartDate"[0] != '!';
    assert ' ' !in "--StartDate";
  }

  /** An unparsable date is ignored. */
  lemma BadDateIgnored<D>(st: ParseState<D>, line: string, parseDate: string -> Option<D>)
    requires StartsWith(line, "--StartDate") || StartsWith(line, "--EndDate")
    requires DateValue(line).Some? && parseDate(DateValue(line).value).None?
    ensures HandleLine(st, line, parseDate) == Ok(st)
  {
    assert line[0] == '-';
  }

  /** `card.name if card else f"Unknown Card {card_id}"` */
  function CardName(cardName: int -> Option<string>, id: int): string {
    match cardName(id)
    case Some(n) => n
    case None => "Unknown Card " + IntToString(id)
  }

  /** The header line and the limit digit a section is written with. */
  function Header(s: Section): string {
    match s
    case Whitelist => "$whitelist"
    case Forbidden => "#forbidden"
    case Limited => "#limited"
    case SemiLimited => "#semi-limited"
  }

  function Limit(s: Section): string {
    match s
    case Whitelist => "3"
    case Forbidden => "0"
    case Limited => "1"
    case SemiLimited => "2"
  }

  function CardLine(id: int, limit: string, name: string): string {
    IntToString(id) + " " + limit + " --" + name
  }

  /** One card line per id, in list order. */
  function CardLines(ids: seq<int>, s: Section, cardName: int -> Option<string>): (r: seq<string>)
    ensures |r| == |ids|
    ensures forall k :: 0 <= k < |ids| ==> r[k] == CardLine(ids[k], Limit(s), CardName(cardName, ids[k]))
  {
    if |ids| == 0 then [] else [CardLine(ids[0], Limit(s), CardName(cardName, ids[0]))] + CardLines(ids[1..], s, cardName)
  }

  /** A section is written only when its list is not empty. */
  function SectionLines(s: Section, ids: seq<int>, cardName: int -> Option<string>): (r: seq<string>)
    ensures |r| == if |ids| == 0 then 0 else |ids| + 1
    ensures |ids| > 0 ==> r[0] == Header(s) && r[1..] == CardLines(ids, s, cardName)
  {
    if |ids| == 0 then [] else [Header(s)] + CardLines(ids, s, cardName)
  }

  /** `--StartDate {date}` or `--EndDate {date}`. */
  function DateLine(start: bool, date: string): string {
    (if start then "--StartDate" else "--EndDate") + " " + date
  }

  function DateLines<D>(b: Banlist<D>, formatDate: D -> string): seq<string> {
    (if b.startDate.Some? then [DateLine(true, formatDate(b.startDate.value))] else []) +
    (if b.endDate.Some? then [DateLine(false, formatDate(b.endDate.value))] else [])
  }

  /** The lines `generate_lflist_content` joins. */
  function GenerateLines<D>(b: Banlist<D>, formatDate: D -> string, cardName: int -> Option<string>): (r: seq<string>)
    ensures |r| >= 1 && r[0] == "!" + b.name
  {
    ["!" + b.name] + DateLines(b, formatDate) +
    SectionLines(Whitelist, b.whitelist, cardName) + SectionLines(Forbidden, b.forbidden, cardName) +
    SectionLines(Limited, b.limited, cardName) + SectionLines(SemiLimited, b.semiLimited, cardName)
  }

  /** `generate_lflist_content` */
  function GenerateLflistContent<D>(b: Banlist<D>, formatDate: D -> string, cardName: int -> Option<string>): (r: string)
    ensures StartsWith(r, "!" + b.name)
  {
    JoinPrefix(GenerateLines(b, formatDate, cardName), '\n');
    Join(GenerateLines(b, formatDate, cardName), '\n')
  }

  /** Reading `a + b` is reading `a`, then reading `b` from where it left off. */
  lemma {:induction false} FoldAppend<S>(step: (S, string) -> Result<S, ParseError>, st: S, a: seq<string>, b: seq<string>)
    ensures Fold(step, st, a + b) ==
      match Fold(step, st, a) case Err(e) => Err(e) case Ok(mid) => Fold(step, mid, b)
    decreases |a|
  {
    if |a| == 0 {
      assert a + b == b;
    } else {
      assert (a + b)[0] == a[0] && (a + b)[1..] == a[1..] + b;
      match step(st, a[0])
      case Err(_) =>
      case Ok(next) => FoldAppend(step, next, a[1..], b);
    }
  }

  /** Lines the step cannot tell apart give the same result. */
  lemma {:induction false} FoldSameSteps<S>(step: (S, string) -> Result<S, ParseError>, st: S, a: seq<string>, b: seq<string>)
    requires |a| == |b|
    requires forall s, k :: 0 <= k < |a| ==> step(s, a[k]) == step(s, b[k])
    ensures Fold(step, st, a) == Fold(step, st, b)
    decreases |a|
  {
    if |a| > 0 {
      assert step(st, a[0]) == step(st, b[0]);
      match step(st, a[0])
      case Err(_) =>
      case Ok(next) =>
        assert forall s, k :: 0 <= k < |a| - 1 ==> step(s, a[1..][k]) == step(s, b[1..][k]) by {
          forall s, k | 0 <= k < |a| - 1 ensures step(s, a[1..][k]) == step(s, b[1..][k]) {
            assert a[1..][k] == a[k + 1] && b[1..][k] == b[k + 1];
          }
        }
        FoldSameSteps(step, next, a[1..], b[1..]);
    }
  }

  lemma RunAppend<D>(st: ParseState<D>, a: seq<string>, b: seq<string>, parseDate: string -> Option<D>)
    ensures Run(st, a + b, parseDate) ==
      match Run(st, a, parseDate) case Err(e) => Err(e) case Ok(mid) => Run(mid, b, parseDate)
  {
    FoldAppend((s: ParseState<D>, l: string) => StepLine(s, l, parseDate), st, a, b);
  }

  /** The reader only looks at each line stripped. */
  lemma RunSameTrims<D>(st: ParseState<D>, a: seq<string>, b: seq<string>, parseDate: string -> Option<D>)
    requires |a| == |b|
    requires forall k :: 0 <= k < |a| ==> Trim(a[k]) == Trim(b[k])
    ensures Run(st, a, parseDate) == Run(st, b, parseDate)
  {
    var step := (s: ParseState<D>, l: string) => StepLine(s, l, parseDate);
    forall s, k | 0 <= k < |a| ensures step(s, a[k]) == step(s, b[k]) {
      assert Trim(a[k]) == Trim(b[k]);
    }
    FoldSameSteps(step, st, a, b);
  }

  /** Reading one line is one step. */
  lemma RunOne<D>(st: ParseState<D>, line: string, parseDate: string -> Option<D>)
    ensures Run(st, [line], parseDate) == StepLine(st, line, parseDate)
  {
    var step := (s: ParseState<D>, l: string) => StepLine(s, l, parseDate);
    assert [line][1..] == [];
    match StepLine(st, line, parseDate)
    case Err(_) =>
    case Ok(next) => assert Fold(step, next, []) == Ok(next);
  }

  /** A `!` line while the name is unset sets it to the rest of the line, stripped. */
  lemma NameHandle<D>(st: ParseState<D>, line: string, parseDate: string -> Option<D>)
    requires st.banlist.name == "" && StartsWith(line, "!")
    ensures HandleLine(st, line, parseDate) == Ok(st.(banlist := st.banlist.(name := Trim(line[1..]))))
  {
  }

  lemma NameLineText(name: string)
    requires name != "" && IsTrimmed(name)
    ensures Trim("!" + name) == "!" + name && StartsWith("!" + name, "!") && Trim(("!" + name)[1..]) == name
  {
    var line := "!" + name;
    assert line[|line| - 1] == name[|name| - 1];
    TrimOfTrimmed(line);
    assert line[1..] == name;
    TrimOfTrimmed(name);
  }

  /** The name line: `!name` with a trimmed, non-empty name sets exactly that name. */
  lemma NameStep<D>(st: ParseState<D>, name: string, parseDate: string -> Option<D>)
    requires st.banlist.name == ""
    requires name != "" && IsTrimmed(name)
    ensures StepLine(st, "!" + name, parseDate) == Ok(st.(banlist := st.banlist.(name := name)))
  {
    NameLineText(name);
    NameHandle(st, "!" + name, parseDate);
  }

  /** A date line with a value updates its date when the value parses. */
  lemma DateHandle<D>(st: ParseState<D>, line: string, start: bool, v: string, parseDate: string -> Option<D>)
    requires !StartsWith(line, "!")
    requires if start then StartsWith(line, "--StartDate") else StartsWith(line, "--EndDate") && !StartsWith(line, "--StartDate")
    requires DateValue(line) == Some(v)
    ensures HandleLine(st, line, parseDate) ==
      Ok(match parseDate(v)
         case Some(d) => if start then st.(banlist := st.banlist.(startDate := Some(d)))
                         else st.(banlist := st.banlist.(endDate := Some(d)))
         case None => st)
  {
  }

  /** A tag, a space and a trimmed value read back as that tag and value. */
  lemma DateLineText(tag: string, f: string)
    requires |tag| > 0 && tag[0] == '-' && ' ' !in tag
    requires f != "" && IsTrimmed(f)
    ensures Trim(tag + " " + f) == tag + " " + f
    ensures !StartsWith(tag + " " + f, "!")
    ensures DateValue(tag + " " + f) == Some(f)
    ensures StartsWith(tag + " " + f, tag)
  {
    TrimConcatKept(tag, " " + f);
    assert tag + " " + f == tag + (" " + f);
    assert (tag + " " + f)[0] == '-';
    SplitOnceAtSpace(tag, f);
    TrimOfTrimmed(f);
    StartsWithConcat(tag, " " + f);
  }

  lemma DateTagsDiffer(tag: string, rest: string)
    requires tag == "--StartDate" || tag == "--EndDate"
    ensures (tag + rest)[0] != '!'
    ensures tag == "--EndDate" ==> !StartsWith(tag + rest, "--StartDate")
  {
    assert (tag + rest)[0] == tag[0] && (tag + rest)[2] == tag[2];
  }

  /** A date line read while that date is unset sets it to the parse of the value, which may be nothing. */
  lemma DateHandleUnset<D>(st: ParseState<D>, line: string, start: bool, v: string, parseDate: string -> Option<D>)
    requires !StartsWith(line, "!")
    requires if start then StartsWith(line, "--StartDate") else StartsWith(line, "--EndDate") && !StartsWith(line, "--StartDate")
    requires DateValue(line) == Some(v)
    requires if start then st.banlist.startDate.None? else st.banlist.endDate.None?
    ensures HandleLine(st, line, parseDate) ==
      Ok(if start then st.(banlist := st.banlist.(startDate := parseDate(v)))
         else st.(banlist := st.banlist.(endDate := parseDate(v))))
  {
    DateHandle(st, line, start, v, parseDate);
    if parseDate(v).None? {
      if start {
        assert st.(banlist := st.banlist.(startDate := None)) == st;
      } else {
        assert st.(banlist := st.banlist.(endDate := None)) == st;
      }
    }
  }

  /** A generated date line, read while that date is unset, sets it to the parse of the formatted date. */
  lemma DateStep<D>(st: ParseState<D>, start: bool, f: string, parseDate: string -> Option<D>)
    requires f != "" && IsTrimmed(f)
    requires if start then st.banlist.startDate.None? else st.banlist.endDate.None?
    ensures StepLine(st, DateLine(start, f), parseDate) ==
      Ok(if start then st.(banlist := st.banlist.(startDate := parseDate(f)))
         else st.(banlist := st.banlist.(endDate := parseDate(f))))
  {
    if start {
      StartDateStep(st, f, parseDate);
    } else {
      EndDateStep(st, f, parseDate);
    }
  }

  lemma StartDateStep<D>(st: ParseState<D>, f: string, parseDate: string -> Option<D>)
    requires f != "" && IsTrimmed(f)
    requires st.banlist.startDate.None?
    ensures StepLine(st, "--StartDate" + " " + f, parseDate) == Ok(st.(banlist := st.banlist.(startDate := parseDate(f))))
  {
    var line := "--StartDate" + " " + f;
    assert "--StartDate"[0] == '-' && ' ' !in "--StartDate";
    DateLineText("--StartDate", f);
    DateTagsDiffer("--StartDate", " " + f);
    DateHandleUnset(st, line, true, f, parseDate);
  }

  lemma EndDateStep<D>(st: ParseState<D>, f: string, parseDate: string -> Option<D>)
    requires f != "" && IsTrimmed(f)
    requires st.banlist.endDate.None?
    ensures StepLine(st, "--EndDate" + " " + f, parseDate) == Ok(st.(banlist := st.banlist.(endDate := parseDate(f))))
  {
    var line := "--EndDate" + " " + f;
    assert "--EndDate"[0] == '-' && ' ' !in "--EndDate";
    DateLineText("--EndDate", f);
    DateTagsDiffer("--EndDate", " " + f);
    DateHandleUnset(st, line, false, f, parseDate);
  }

  /** A header line opens its section. */
  lemma HeaderHandle<D>(st: ParseState<D>, line: string, s: Section, parseDate: string -> Option<D>)
    requires line != "" && !StartsWith(line, "!") && !StartsWith(line, "--StartDate") && !StartsWith(line, "--EndDate")
    requires SectionHeader(line) == Some(s)
    ensures HandleLine(st, line, parseDate) == Ok(st.(section := Some(s)))
  {
  }

  /** A header is trimmed and escapes the comment, date and deck-name tests. */
  lemma HeaderShape(h: string)
    requires |h| > 1 && (h[0] == '$' || h[0] == '#') && h[|h| - 1] != ' ' && !IsSpace(h[|h| - 1])
    ensures Trim(h) == h && h != "" && !StartsWith(h, "!") && !StartsWith(h, "--StartDate") && !StartsWith(h, "--EndDate")
  {
    assert IsTrimmed(h);
    TrimOfTrimmed(h);
  }

  lemma HeaderText(s: Section)
    ensures var h := Header(s);
      && Trim(h) == h && h != "" && !StartsWith(h, "!") && !StartsWith(h, "--StartDate") && !StartsWith(h, "--EndDate")
      && SectionHeader(h) == Some(s)
  {
    var h := Header(s);
    HeaderShape(h);
    assert StartsWith(h, h);
    match s
    case Whitelist =>
    case Forbidden =>
      assert h[0] == '#';
    case Limited =>
      assert h[0] == '#' && h[1] != 'f';
    case SemiLimited =>
      assert h[0] == '#' && h[1] != 'f' && h[1] != 'l';
  }

  lemma HeaderStep<D>(st: ParseState<D>, s: Section, parseDate: string -> Option<D>)
    ensures StepLine(st, Header(s), parseDate) == Ok(st.(section := Some(s)))
  {
    HeaderText(s);
    HeaderHandle(st, Header(s), s, parseDate);
  }

  /** A card line inside a section appends its id to that section's list. */
  lemma CardHandle<D>(st: ParseState<D>, line: string, s: Section, id: int, parseDate: string -> Option<D>)
    requires line != "" && !StartsWith(line, "!") && !StartsWith(line, "--StartDate") && !StartsWith(line, "--EndDate")
    requires SectionHeader(line).None? && !StartsWith(line, "#") && !StartsWith(line, "--")
    requires st.section == Some(s) && CardEntry(line) == Some(id)
    ensures HandleLine(st, line, parseDate) == Ok(st.(banlist := st.banlist.Append(s, [id])))
  {
  }

  /** The first character of a line decides most of the tests above. */
  lemma FirstCharTests(line: string)
    requires line != "" && line[0] != '!' && line[0] != '#' && line[0] != '$' && (line[0] != '-' || (|line| > 1 && line[1] != '-'))
    ensures !StartsWith(line, "!") && !StartsWith(line, "--StartDate") && !StartsWith(line, "--EndDate")
    ensures SectionHeader(line).None? && !StartsWith(line, "#") && !StartsWith(line, "--")
  {
  }

  /** The two leading fields of a generated card line. */
  lemma CardLineFields(d: string, lim: string, rest: string)
    requires d != "" && ' ' !in d && |lim| == 1 && lim[0] != ' '
    ensures var parts := SplitMax(d + " " + lim + " " + rest, ' ', 2); |parts| >= 2 && parts[0] == d && parts[1] == lim
  {
    var line := d + " " + lim + " " + rest;
    assert IndexOf(line, ' ') == |d| by {
      assert line[|d|] == ' ';
      forall j | 0 <= j < |d| ensures line[j] != ' ' {
        assert line[j] == d[j];
      }
      IndexOfFirst(line, ' ', |d|);
    }
    var tail := line[|d| + 1..];
    assert tail == lim + " " + rest;
    assert IndexOf(tail, ' ') == 1 by {
      assert tail[1] == ' ' && tail[0] != ' ';
      IndexOfFirst(tail, ' ', 1);
    }
    assert line[..|d|] == d;
    assert tail[..1] == lim;
  }

  lemma LimitParses(s: Section)
    ensures |Limit(s)| == 1 && Limit(s)[0] != ' ' && ParseInt(Limit(s)).Some?
  {
    match s
    case Whitelist => ParseIntOfNat(3); assert NatToString(3) == "3";
    case Forbidden => ParseIntOfNat(0); assert NatToString(0) == "0";
    case Limited => ParseIntOfNat(1); assert NatToString(1) == "1";
    case SemiLimited => ParseIntOfNat(2); assert NatToString(2) == "2";
  }

  /** A generated card line, stripped, still holds its id and limit up front. */
  lemma CardLineText(id: int, s: Section, name: string)
    ensures var line := Trim(CardLine(id, Limit(s), name));
      && line != "" && line[0] != '!' && line[0] != '#' && line[0] != '$' && (line[0] != '-' || (|line| > 1 && line[1] != '-'))
      && CardEntry(line) == Some(id)
  {
    var d := IntToString(id);
    IntToStringShape(id);
    var lim := Limit(s);
    LimitParses(s);
    var head := d + " " + lim + " --";
    assert head[0] == d[0] && head[|head| - 1] == '-';
    TrimSolidPrefix(head, name);
    var tail := DropRight(name, IsSpace);
    var line := Trim(CardLine(id, lim, name));
    assert line == d + " " + lim + " " + ("--" + tail);
    assert line[0] == d[0];
    assert |d| > 1 ==> line[1] == d[1];
    CardLineFields(d, lim, "--" + tail);
    ParseIntOfIntToString(id);
  }

  lemma CardStep<D>(st: ParseState<D>, id: int, s: Section, name: string, parseDate: string -> Option<D>)
    requires st.section == Some(s)
    ensures StepLine(st, CardLine(id, Limit(s), name), parseDate) == Ok(st.(banlist := st.banlist.Append(s, [id])))
  {
    CardLineText(id, s, name);
    var line := Trim(CardLine(id, Limit(s), name));
    FirstCharTests(line);
    CardHandle(st, line, s, id, parseDate);
  }

  /** The state after the first `k` of `ids` were appended to section `s`. */
  function AfterIds<D>(st: ParseState<D>, s: Section, ids: seq<int>, k: nat): ParseState<D>
    requires k <= |ids|
  {
    st.(banlist := st.banlist.Append(s, ids[..k]))
  }

  /** A run of lines, each of which appends its id to section `s`, appends them all, in order. */
  lemma {:induction false} FoldAppendsIds<D>(step: (ParseState<D>, string) -> Result<ParseState<D>, ParseError>, st: ParseState<D>,
                                             lines: seq<string>, ids: seq<int>, s: Section, k: nat)
    requires |lines| == |ids| && k <= |ids|
    requires forall j :: k <= j < |lines| ==> step(AfterIds(st, s, ids, j), lines[j]) == Ok(AfterIds(st, s, ids, j + 1))
    ensures Fold(step, AfterIds(st, s, ids, k), lines[k..]) == Ok(AfterIds(st, s, ids, |ids|))
    decreases |lines| - k
  {
    if k < |lines| {
      assert lines[k..][0] == lines[k] && lines[k..][1..] == lines[k + 1..];
      FoldAppendsIds(step, st, lines, ids, s, k + 1);
    }
  }

  /** Appending one id at a time is appending them all. */
  lemma AfterIdsStep<D>(st: ParseState<D>, s: Section, ids: seq<int>, j: nat)
    requires j < |ids|
    ensures AfterIds(st, s, ids, j + 1) == AfterIds(st, s, ids, j).(banlist := AfterIds(st, s, ids, j).banlist.Append(s, [ids[j]]))
  {
    assert ids[..j + 1] == ids[..j] + [ids[j]];
    assert st.banlist.Cards(s) + ids[..j + 1] == st.banlist.Cards(s) + ids[..j] + [ids[j]];
  }

  /** A run of generated card lines adds the ids, in order, to the open section. */
  lemma CardLinesRun<D>(st: ParseState<D>, ids: seq<int>, s: Section, cardName: int -> Option<string>,
                        parseDate: string -> Option<D>)
    requires st.section == Some(s)
    ensures Run(st, CardLines(ids, s, cardName), parseDate) == Ok(st.(banlist := st.banlist.Append(s, ids)))
  {
    var lines := CardLines(ids, s, cardName);
    var step := (t: ParseState<D>, l: string) => StepLine(t, l, parseDate);
    forall j | 0 <= j < |lines| ensures step(AfterIds(st, s, ids, j), lines[j]) == Ok(AfterIds(st, s, ids, j + 1)) {
      CardStep(AfterIds(st, s, ids, j), ids[j], s, CardName(cardName, ids[j]), parseDate);
      AfterIdsStep(st, s, ids, j);
    }
    FoldAppendsIds(step, st, lines, ids, s, 0);
    assert ids[..0] == [] && ids[..|ids|] == ids;
    assert AfterIds(st, s, ids, 0).banlist == st.banlist;
    assert lines[0..] == lines;
  }

  /** The section the reader is in after a generated section: unchanged when the section was not written. */
  function SectionAfter(prev: Option<Section>, s: Section, ids: seq<int>): Option<Section> {
    if |ids| == 0 then prev else Some(s)
  }

  /** Reading a generated section puts its ids back into its list. */
  lemma SectionRun<D>(st: ParseState<D>, s: Section, ids: seq<int>, cardName: int -> Option<string>,
                      parseDate: string -> Option<D>)
    ensures Run(st, SectionLines(s, ids, cardName), parseDate) ==
      Ok(ParseState(st.banlist.Append(s, ids), SectionAfter(st.section, s, ids)))
  {
    if |ids| > 0 {
      HeaderStep(st, s, parseDate);
      RunOne(st, Header(s), parseDate);
      RunAppend(st, [Header(s)], CardLines(ids, s, cardName), parseDate);
      CardLinesRun(st.(section := Some(s)), ids, s, cardName, parseDate);
    } else {
      assert st.banlist.Append(s, ids) == st.banlist by {
        assert st.banlist.Cards(s) + ids == st.banlist.Cards(s);
      }
    }
  }

  /** What the reader makes of a generated date: the parse of its formatted text. */
  function ReadBack<D>(d: Option<D>, formatDate: D -> string, parseDate: string -> Option<D>): Option<D> {
    if d.Some? then parseDate(formatDate(d.value)) else None
  }

  /** The generated dates are read back through the date parser. */
  lemma DatesRun<D>(st: ParseState<D>, b: Banlist<D>, formatDate: D -> string, parseDate: string -> Option<D>)
    requires st.banlist.startDate.None? && st.banlist.endDate.None?
    requires b.startDate.Some? ==> formatDate(b.startDate.value) != "" && IsTrimmed(formatDate(b.startDate.value))
    requires b.endDate.Some? ==> formatDate(b.endDate.value) != "" && IsTrimmed(formatDate(b.endDate.value))
    ensures Run(st, DateLines(b, formatDate), parseDate) ==
      Ok(st.(banlist := st.banlist.(startDate := ReadBack(b.startDate, formatDate, parseDate),
                                    endDate := ReadBack(b.endDate, formatDate, parseDate))))
  {
    var starts := if b.startDate.Some? then [DateLine(true, formatDate(b.startDate.value))] else [];
    var ends := if b.endDate.Some? then [DateLine(false, formatDate(b.endDate.value))] else [];
    var mid := st.(banlist := st.banlist.(startDate := ReadBack(b.startDate, formatDate, parseDate)));
    var last := mid.(banlist := mid.banlist.(endDate := ReadBack(b.endDate, formatDate, parseDate)));
    assert Run(st, starts, parseDate) == Ok(mid) by {
      if b.startDate.Some? {
        DateStep(st, true, formatDate(b.startDate.value), parseDate);
        RunOne(st, starts[0], parseDate);
      } else {
        assert mid == st;
      }
    }
    assert Run(mid, ends, parseDate) == Ok(last) by {
      if b.endDate.Some? {
        DateStep(mid, false, formatDate(b.endDate.value), parseDate);
        RunOne(mid, ends[0], parseDate);
      } else {
        assert last == mid;
      }
    }
    RunAppend(st, starts, ends, parseDate);
  }

  /** Reading `a` then `b` from where `a` left off. */
  lemma RunThen<D>(st: ParseState<D>, a: seq<string>, mid: ParseState<D>, b: seq<string>, last: ParseState<D>,
                   parseDate: string -> Option<D>)
    requires Run(st, a, parseDate) == Ok(mid) && Run(mid, b, parseDate) == Ok(last)
    ensures Run(st, a + b, parseDate) == Ok(last)
  {
    RunAppend(st, a, b, parseDate);
  }

  /** What the round trip asks of the names and dates: no newline anywhere, and dates that `strip()` leaves alone. */
  predicate Printable<D>(b: Banlist<D>, formatDate: D -> string, cardName: int -> Option<string>) {
    && '\n' !in b.name
    && NamesPrintable(b.whitelist, cardName) && NamesPrintable(b.forbidden, cardName)
    && NamesPrintable(b.limited, cardName) && NamesPrintable(b.semiLimited, cardName)
    && DatesPrintable(b, formatDate)
  }

  /** No card name written for `ids` holds a newline. */
  predicate NamesPrintable(ids: seq<int>, cardName: int -> Option<string>) {
    forall id :: id in ids ==> '\n' !in CardName(cardName, id)
  }

  /** Each date is written as a non-empty text that `strip()` leaves alone and that holds no newline. */
  predicate DatesPrintable<D>(b: Banlist<D>, formatDate: D -> string) {
    && (b.startDate.Some? ==> var f := formatDate(b.startDate.value); f != "" && IsTrimmed(f) && '\n' !in f)
    && (b.endDate.Some? ==> var f := formatDate(b.endDate.value); f != "" && IsTrimmed(f) && '\n' !in f)
  }

  /** What `strip()` and `split("\n")` need of a line to leave it whole. */
  predicate SolidLine(line: string) {
    '\n' !in line && |line| > 0 && !IsSpace(line[0])
  }

  predicate AllSolid(lines: seq<string>) {
    forall k :: 0 <= k < |lines| ==> SolidLine(lines[k])
  }

  lemma AllSolidAppend(a: seq<string>, b: seq<string>)
    requires AllSolid(a) && AllSolid(b)
    ensures AllSolid(a + b)
  {
    forall k | 0 <= k < |a + b| ensures SolidLine((a + b)[k]) {
      if k < |a| {
        assert (a + b)[k] == a[k];
      } else {
        assert (a + b)[k] == b[k - |a|];
      }
    }
  }

  lemma CardLineSolid(id: int, s: Section, name: string)
    requires '\n' !in name
    ensures SolidLine(CardLine(id, Limit(s), name))
  {
    var d := IntToString(id);
    IntToStringShape(id);
    var line := CardLine(id, Limit(s), name);
    assert line == d + (" " + Limit(s) + " --" + name);
    assert line[0] == d[0];
    assert '\n' !in " " + Limit(s) + " --";
  }

  lemma HeaderSolid(s: Section)
    ensures SolidLine(Header(s))
  {
    var h := Header(s);
    assert h[0] == '$' || h[0] == '#';
    match s
    case Whitelist =>
      assert '\n' !in "$whitelist";
    case Forbidden =>
      assert '\n' !in "#forbidden";
    case Limited =>
      assert '\n' !in "#limited";
    case SemiLimited =>
      assert '\n' !in "#semi-limited";
  }

  lemma SectionLinesSolid(s: Section, ids: seq<int>, cardName: int -> Option<string>)
    requires NamesPrintable(ids, cardName)
    ensures AllSolid(SectionLines(s, ids, cardName))
  {
    if |ids| > 0 {
      var cards := CardLines(ids, s, cardName);
      forall k | 0 <= k < |cards| ensures SolidLine(cards[k]) {
        CardLineSolid(ids[k], s, CardName(cardName, ids[k]));
      }
      HeaderSolid(s);
      AllSolidAppend([Header(s)], cards);
    }
  }

  lemma TopLinesSolid<D>(b: Banlist<D>, formatDate: D -> string)
    requires '\n' !in b.name && DatesPrintable(b, formatDate)
    ensures AllSolid(["!" + b.name] + DateLines(b, formatDate))
  {
    forall start: bool, f: string | '\n' !in f ensures SolidLine(DateLine(start, f)) {
      var tag := if start then "--StartDate" else "--EndDate";
      assert DateLine(start, f) == tag + (" " + f);
      assert '\n' !in tag;
    }
    assert SolidLine("!" + b.name) by {
      assert ("!" + b.name)[0] == '!';
    }
  }

  /** Every generated line is free of newlines and starts with a character `strip()` keeps. */
  lemma GeneratedLinesSolid<D>(b: Banlist<D>, formatDate: D -> string, cardName: int -> Option<string>)
    requires Printable(b, formatDate, cardName)
    ensures AllSolid(GenerateLines(b, formatDate, cardName))
  {
    var top := ["!" + b.name] + DateLines(b, formatDate);
    var w := SectionLines(Whitelist, b.whitelist, cardName);
    var f := SectionLines(Forbidden, b.forbidden, cardName);
    var l := SectionLines(Limited, b.limited, cardName);
    var sl := SectionLines(SemiLimited, b.semiLimited, cardName);
    TopLinesSolid(b, formatDate);
    SectionLinesSolid(Whitelist, b.whitelist, cardName);
    SectionLinesSolid(Forbidden, b.forbidden, cardName);
    SectionLinesSolid(Limited, b.limited, cardName);
    SectionLinesSolid(SemiLimited, b.semiLimited, cardName);
    AllSolidAppend(top, w);
    AllSolidAppend(top + w, f);
    AllSolidAppend(top + w + f, l);
    AllSolidAppend(top + w + f + l, sl);
  }

  /** The name and date lines are read back into a banlist with no cards yet. */
  lemma ReadTopLines<D>(b: Banlist<D>, formatDate: D -> string, parseDate: string -> Option<D>)
    requires b.name != "" && IsTrimmed(b.name)
    requires DatesPrintable(b, formatDate)
    ensures Run(ParseState(NewBanlist(), None), ["!" + b.name] + DateLines(b, formatDate), parseDate) ==
      Ok(ParseState(NewBanlist<D>().(name := b.name, startDate := ReadBack(b.startDate, formatDate, parseDate),
                                     endDate := ReadBack(b.endDate, formatDate, parseDate)), None))
  {
    var st0: ParseState<D> := ParseState(NewBanlist(), None);
    NameStep(st0, b.name, parseDate);
    RunOne(st0, "!" + b.name, parseDate);
    var st1 := st0.(banlist := st0.banlist.(name := b.name));
    DatesRun(st1, b, formatDate, parseDate);
    RunThen(st0, ["!" + b.name], st1, DateLines(b, formatDate),
            ParseState(NewBanlist<D>().(name := b.name, startDate := ReadBack(b.startDate, formatDate, parseDate),
                                        endDate := ReadBack(b.endDate, formatDate, parseDate)), None), parseDate);
  }

  /** The four section appends, from empty lists, give back the banlist's lists and keep everything else. */
  lemma AppendAllLists<D>(x: Banlist<D>, b: Banlist<D>)
    requires x.whitelist == [] && x.forbidden == [] && x.limited == [] && x.semiLimited == []
    ensures var y := x.Append(Whitelist, b.whitelist).Append(Forbidden, b.forbidden).Append(Limited, b.limited).Append(SemiLimited, b.semiLimited);
      && y.whitelist == b.whitelist && y.forbidden == b.forbidden && y.limited == b.limited && y.semiLimited == b.semiLimited
      && y.name == x.name && y.startDate == x.startDate && y.endDate == x.endDate
  {
    var y1 := x.Append(Whitelist, b.whitelist);
    var y2 := y1.Append(Forbidden, b.forbidden);
    var y3 := y2.Append(Limited, b.limited);
    var y4 := y3.Append(SemiLimited, b.semiLimited);
    assert y1.Cards(Whitelist) == [] + b.whitelist == b.whitelist;
    assert y2.Cards(Forbidden) == [] + b.forbidden == b.forbidden;
    assert y3.Cards(Limited) == [] + b.limited == b.limited;
    assert y4.Cards(SemiLimited) == [] + b.semiLimited == b.semiLimited;
    assert y4.Cards(Whitelist) == y3.Cards(Whitelist) == y2.Cards(Whitelist) == y1.Cards(Whitelist);
    assert y4.Cards(Forbidden) == y3.Cards(Forbidden) == y2.Cards(Forbidden);
    assert y4.Cards(Limited) == y3.Cards(Limited);
  }

  /** The four generated sections are read back, in order, into the four lists. */
  lemma ReadSections<D>(st: ParseState<D>, b: Banlist<D>, cardName: int -> Option<string>, parseDate: string -> Option<D>)
    ensures var w := SectionLines(Whitelist, b.whitelist, cardName);
      var f := SectionLines(Forbidden, b.forbidden, cardName);
      var l := SectionLines(Limited, b.limited, cardName);
      var sl := SectionLines(SemiLimited, b.semiLimited, cardName);
      && Run(st, w + f + l + sl, parseDate).Ok?
      && Run(st, w + f + l + sl, parseDate).value.banlist ==
         st.banlist.Append(Whitelist, b.whitelist).Append(Forbidden, b.forbidden).Append(Limited, b.limited).Append(SemiLimited, b.semiLimited)
  {
    var w := SectionLines(Whitelist, b.whitelist, cardName);
    var f := SectionLines(Forbidden, b.forbidden, cardName);
    var l := SectionLines(Limited, b.limited, cardName);
    var sl := SectionLines(SemiLimited, b.semiLimited, cardName);
    SectionRun(st, Whitelist, b.whitelist, cardName, parseDate);
    var st3 := Run(st, w, parseDate).value;
    SectionRun(st3, Forbidden, b.forbidden, cardName, parseDate);
    var st4 := Run(st3, f, parseDate).value;
    SectionRun(st4, Limited, b.limited, cardName, parseDate);
    var st5 := Run(st4, l, parseDate).value;
    SectionRun(st5, SemiLimited, b.semiLimited, cardName, parseDate);
    var st6 := Run(st5, sl, parseDate).value;
    RunThen(st, w, st3, f, st4, parseDate);
    RunThen(st, w + f, st4, l, st5, parseDate);
    RunThen(st, w + f + l, st5, sl, st6, parseDate);
  }

  /** The whole generated text, line by line, is read back into the banlist it came from. */
  lemma ReadGeneratedLines<D>(b: Banlist<D>, formatDate: D -> string, cardName: int -> Option<string>,
                              parseDate: string -> Option<D>)
    requires b.name != "" && IsTrimmed(b.name)
    requires DatesPrintable(b, formatDate)
    ensures var r := Run(ParseState(NewBanlist(), None), GenerateLines(b, formatDate, cardName), parseDate);
      && r.Ok?
      && r.value.banlist.name == b.name
      && r.value.banlist.startDate == ReadBack(b.startDate, formatDate, parseDate)
      && r.value.banlist.endDate == ReadBack(b.endDate, formatDate, parseDate)
      && r.value.banlist.whitelist == b.whitelist && r.value.banlist.forbidden == b.forbidden
      && r.value.banlist.limited == b.limited && r.value.banlist.semiLimited == b.semiLimited
  {
    var top := ["!" + b.name] + DateLines(b, formatDate);
    var w := SectionLines(Whitelist, b.whitelist, cardName);
    var f := SectionLines(Forbidden, b.forbidden, cardName);
    var l := SectionLines(Limited, b.limited, cardName);
    var sl := SectionLines(SemiLimited, b.semiLimited, cardName);
    ReadTopLines(b, formatDate, parseDate);
    var st2: ParseState<D> := ParseState(NewBanlist<D>().(name := b.name, startDate := ReadBack(b.startDate, formatDate, parseDate),
                                                         endDate := ReadBack(b.endDate, formatDate, parseDate)), None);
    ReadSections(st2, b, cardName, parseDate);
    var st6 := Run(st2, w + f + l + sl, parseDate).value;
    RunThen(ParseState(NewBanlist(), None), top, st2, w + f + l + sl, st6, parseDate);
    RegroupLines(top, w, f, l, sl);
    AppendAllLists(st2.banlist, b);
  }

  /** Five groups of lines, regrouped: a step `ReadGeneratedLines` cannot afford to prove in its own context. */
  lemma RegroupLines(a: seq<string>, b: seq<string>, c: seq<string>, d: seq<string>, e: seq<string>)
    ensures a + b + c + d + e == a + (b + c + d + e)
  {
  }

  /**
   * Parsing what `generate_lflist_content` wrote puts every card id back into the list it
   * came from, in order, and recovers the name, provided the name is non-empty and trimmed
   * and no name or date holds a newline.
   */
  lemma RoundTrip<D>(b: Banlist<D>, filename: string, formatDate: D -> string, cardName: int -> Option<string>,
                     parseDate: string -> Option<D>)
    requires b.name != "" && IsTrimmed(b.name)
    requires Printable(b, formatDate, cardName)
    ensures var r := ParseLflistContent(GenerateLflistContent(b, formatDate, cardName), filename, parseDate);
      && r.Ok?
      && r.value.name == b.name
      && r.value.whitelist == b.whitelist && r.value.forbidden == b.forbidden
      && r.value.limited == b.limited && r.value.semiLimited == b.semiLimited
      && r.value.startDate == (if b.startDate.Some? then parseDate(formatDate(b.startDate.value)) else None)
      && r.value.endDate == (if b.endDate.Some? then parseDate(formatDate(b.endDate.value)) else None)
  {
    var lines := GenerateLines(b, formatDate, cardName);
    GeneratedLinesSolid(b, formatDate, cardName);
    RunOfJoined(ParseState(NewBanlist(), None), lines, parseDate);
    ReadGeneratedLines(b, formatDate, cardName, parseDate);
  }

  /** Joining solid lines and splitting the stripped text again reads the same as the lines themselves. */
  lemma RunOfJoined<D>(st: ParseState<D>, lines: seq<string>, parseDate: string -> Option<D>)
    requires |lines| >= 1 && AllSolid(lines)
    ensures Run(st, Split(Trim(Join(lines, '\n')), '\n'), parseDate) == Run(st, lines, parseDate)
  {
    SplitTrimJoinTrims(lines);
    RunSameTrims(st, Split(Trim(Join(lines, '\n')), '\n'), lines, parseDate);
  }

  /** No line starts with `!` once stripped. */
  predicate NoNameLine(lines: seq<string>) {
    forall k :: 0 <= k < |lines| ==> !StartsWith(Trim(lines[k]), "!")
  }

  /** Lines without a `!` line leave an unset name unset. */
  lemma {:induction false} RunKeepsNoName<D>(st: ParseState<D>, lines: seq<string>, parseDate: string -> Option<D>)
    requires st.banlist.name == "" && NoNameLine(lines)
    ensures Run(st, lines, parseDate).Ok? ==> Run(st, lines, parseDate).value.banlist.name == ""
    decreases |lines|
  {
    if |lines| > 0 {
      assert !StartsWith(Trim(lines[0]), "!");
      assert forall k :: 0 <= k < |lines[1..]| ==> lines[1..][k] == lines[k + 1];
      match StepLine(st, lines[0], parseDate)
      case Err(_) =>
      case Ok(next) => RunKeepsNoName(next, lines[1..], parseDate);
    }
  }

  /** With no `!` line anywhere in the content, the name comes from the file name. */
  lemma NamelessFileNamedAfterFile<D>(content: string, filename: string, parseDate: string -> Option<D>)
    requires NoNameLine(Split(Trim(content), '\n'))
    ensures ParseLflistContent(content, filename, parseDate).Ok? ==>
      ParseLflistContent(content, filename, parseDate).value.name == DefaultName(filename)
  {
    RunKeepsNoName(ParseState(NewBanlist<D>(), None), Split(Trim(content), '\n'), parseDate);
  }

  /** Empty content reads as an empty custom banlist named after the file. */
  lemma EmptyContentNamedAfterFile<D>(filename: string, parseDate: string -> Option<D>)
    ensures ParseLflistContent("", filename, parseDate) == Ok(NewBanlist<D>().(name := DefaultName(filename)))
  {
    assert Trim("") == "";
    assert Split("", '\n') == [""];
    RunOne(ParseState(NewBanlist<D>(), None), "", parseDate);
  }

  /** A deck entry: `{"cardId": ..., "quantity": ...}`. */
  datatype DeckCard = DeckCard(cardId: int, quantity: int)

  /** One entry of `violations`. */
  datatype Violation = Violation(cardId: int, cardName: string, currentQuantity: int, maxAllowed: int, restriction: string)

  datatype DeckValidation = DeckValidation(isValid: bool, violations: seq<Violation>, banlistName: string)

  /** An HTTP error response with its status code and detail. */
  datatype HttpError = HttpError(status: int, detail: string)

  /** Sum of the quantities of the entries with id `id`. */
  function Total(cards: seq<DeckCard>, id: int): int {
    if |cards| == 0 then 0
    else Total(cards[..|cards| - 1], id) + (if cards[|cards| - 1].cardId == id then cards[|cards| - 1].quantity else 0)
  }

  /** The ids of `cards` in the order each first appears: the key order of `card_totals`. */
  function FirstSeen(cards: seq<DeckCard>): (r: seq<int>)
    ensures forall id :: id in r <==> exists i :: 0 <= i < |cards| && cards[i].cardId == id
    ensures forall k :: 0 <= k < |r| ==> exists i :: 0 <= i < |cards| && cards[i].cardId == r[k]
  {
    if |cards| == 0 then []
    else
      var before := FirstSeen(cards[..|cards| - 1]);
      var id := cards[|cards| - 1].cardId;
      assert forall i :: 0 <= i < |cards| - 1 ==> cards[..|cards| - 1][i] == cards[i];
      if id in before then before else before + [id]
  }

  /** No element is listed twice. */
  predicate NoRepeats(s: seq<int>) {
    forall i, j :: 0 <= i < j < |s| ==> s[i] != s[j]
  }

  /** No id is listed twice. */
  lemma {:induction false} FirstSeenDistinct(cards: seq<DeckCard>)
    ensures NoRepeats(FirstSeen(cards))
  {
    if |cards| > 0 {
      var pre := cards[..|cards| - 1];
      FirstSeenDistinct(pre);
      var before := FirstSeen(pre);
      var id := cards[|cards| - 1].cardId;
      if id !in before {
        var r := before + [id];
        forall i, j | 0 <= i < j < |r| ensures r[i] != r[j] {
          assert r[i] == before[i] && before[i] in before;
          if j < |before| {
            assert r[j] == before[j];
          }
        }
      }
    }
  }

  /** `Card.get_by_id(card_id).name`, or `Card ID {card_id}` for an unknown card. */
  function ViolationName(cardName: int -> Option<string>, id: int): string {
    match cardName(id)
    case Some(n) => n
    case None => "Card ID " + IntToString(id)
  }

  /** The violations among `ids`, in that order, for the totals of `cards`. */
  function ViolationsOf(ids: seq<int>, cards: seq<DeckCard>, maxCopies: int -> int, restriction: int -> string,
                        cardName: int -> Option<string>): (r: seq<Violation>)
    ensures |r| <= |ids|
  {
    if |ids| == 0 then []
    else
      var before := ViolationsOf(ids[..|ids| - 1], cards, maxCopies, restriction, cardName);
      var id := ids[|ids| - 1];
      var total := Total(cards, id);
      if total > maxCopies(id) then before + [Violation(id, ViolationName(cardName, id), total, maxCopies(id), restriction(id))]
      else before
  }

  /** The deck's entries: main, then extra, then side. */
  function AllCards(mainDeck: seq<DeckCard>, extraDeck: seq<DeckCard>, sideDeck: seq<DeckCard>): seq<DeckCard> {
    mainDeck + extraDeck + sideDeck
  }


  /** The response of `validate_deck_against_banlist`; a missing banlist is a 404. */
  function ValidateDeckSpec(banlistName: Option<string>, cards: seq<DeckCard>, maxCopies: int -> int,
                            restriction: int -> string, cardName: int -> Option<string>): Result<DeckValidation, HttpError>
  {
    match banlistName
    case None => Err(HttpError(404, "Banlist not found"))
    case Some(name) =>
      var v := ViolationsOf(FirstSeen(cards), cards, maxCopies, restriction, cardName);
      Ok(DeckValidation(|v| == 0, v, name))
  }

  /** Some violation in `vs` is about card `id`. */
  predicate Reported(vs: seq<Violation>, id: int) {
    exists k :: 0 <= k < |vs| && vs[k].cardId == id
  }

  /** A card is reported exactly when its total over the deck exceeds its limit. */
  lemma {:induction false} ViolationIff(ids: seq<int>, cards: seq<DeckCard>, maxCopies: int -> int, restriction: int -> string,
                                        cardName: int -> Option<string>, id: int)
    ensures Reported(ViolationsOf(ids, cards, maxCopies, restriction, cardName), id) <==> (id in ids && Total(cards, id) > maxCopies(id))
    decreases |ids|
  {
    if |ids| > 0 {
      var before := ids[..|ids| - 1];
      var last := ids[|ids| - 1];
      ViolationIff(before, cards, maxCopies, restriction, cardName, id);
      assert ids == before + [last];
      var r := ViolationsOf(ids, cards, maxCopies, restriction, cardName);
      var rb := ViolationsOf(before, cards, maxCopies, restriction, cardName);
      assert forall k :: 0 <= k < |rb| ==> r[k] == rb[k];
      if exists k :: 0 <= k < |r| && r[k].cardId == id {
        var k :| 0 <= k < |r| && r[k].cardId == id;
        if k < |rb| {
          assert rb[k].cardId == id;
        }
      }
      if id in ids && Total(cards, id) > maxCopies(id) {
        if id == last {
          assert r[|r| - 1].cardId == id;
        } else {
          assert id in before;
          var k :| 0 <= k < |rb| && rb[k].cardId == id;
          assert r[k].cardId == id;
        }
      }
    }
  }

  /**
   * Each violation is about a card of `ids` and carries its name, its total, its limit
   * (which the total exceeds) and its restriction.
   */
  predicate WellReported(vs: seq<Violation>, ids: seq<int>, cards: seq<DeckCard>, maxCopies: int -> int,
                         restriction: int -> string, cardName: int -> Option<string>) {
    forall k :: 0 <= k < |vs| ==>
      && vs[k].cardId in ids
      && vs[k].cardName == ViolationName(cardName, vs[k].cardId)
      && vs[k].currentQuantity == Total(cards, vs[k].cardId)
      && vs[k].maxAllowed == maxCopies(vs[k].cardId)
      && vs[k].currentQuantity > vs[k].maxAllowed
      && vs[k].restriction == restriction(vs[k].cardId)
  }

  /** Each reported card carries its name, its total, its limit and its restriction. */
  lemma {:induction false} ViolationFields(ids: seq<int>, cards: seq<DeckCard>, maxCopies: int -> int, restriction: int -> string,
                                           cardName: int -> Option<string>)
    ensures WellReported(ViolationsOf(ids, cards, maxCopies, restriction, cardName), ids, cards, maxCopies, restriction, cardName)
    decreases |ids|
  {
    if |ids| > 0 {
      var before := ids[..|ids| - 1];
      ViolationFields(before, cards, maxCopies, restriction, cardName);
      var r := ViolationsOf(ids, cards, maxCopies, restriction, cardName);
      var rb := ViolationsOf(before, cards, maxCopies, restriction, cardName);
      assert forall x :: x in before ==> x in ids;
      forall k | 0 <= k < |r| ensures r[k].cardId in ids {
        if k < |rb| {
          assert r[k] == rb[k];
        }
      }
    }
  }

  /** Over ids listed once each, no card is reported twice. */
  lemma ViolationsDistinct(ids: seq<int>, cards: seq<DeckCard>, maxCopies: int -> int, restriction: int -> string,
                           cardName: int -> Option<string>)
    requires NoRepeats(ids)
    ensures var r := ViolationsOf(ids, cards, maxCopies, restriction, cardName);
      forall k1, k2 :: 0 <= k1 < k2 < |r| ==> r[k1].cardId != r[k2].cardId
  {
    var r := ViolationsOf(ids, cards, maxCopies, restriction, cardName);
    ViolationFields(ids, cards, maxCopies, restriction, cardName);
    forall k1, k2 | 0 <= k1 < k2 < |r| ensures r[k1].cardId != r[k2].cardId {
      if r[k1].cardId == r[k2].cardId {
        assert r[k1].cardId in ids;
        var p :| 0 <= p < |ids| && ids[p] == r[k1].cardId;
        ViolationsInOrder(ids, cards, maxCopies, restriction, cardName, k1, k2, p, p);
      }
    }
  }

  /** Reported cards keep the order of `ids`. */
  lemma {:induction false} ViolationsInOrder(ids: seq<int>, cards: seq<DeckCard>, maxCopies: int -> int, restriction: int -> string,
                                             cardName: int -> Option<string>, k1: int, k2: int, p1: int, p2: int)
    requires NoRepeats(ids)
    requires var r := ViolationsOf(ids, cards, maxCopies, restriction, cardName);
      0 <= k1 < k2 < |r| && 0 <= p1 < |ids| && 0 <= p2 < |ids| && r[k1].cardId == ids[p1] && r[k2].cardId == ids[p2]
    ensures p1 < p2
    decreases |ids|
  {
    var before := ids[..|ids| - 1];
    var r := ViolationsOf(ids, cards, maxCopies, restriction, cardName);
    var rb := ViolationsOf(before, cards, maxCopies, restriction, cardName);
    ViolationFields(before, cards, maxCopies, restriction, cardName);
    if k2 < |rb| {
      assert r[k1] == rb[k1] && r[k2] == rb[k2];
      assert p1 < |ids| - 1 && p2 < |ids| - 1 by {
        assert rb[k1].cardId in before && rb[k2].cardId in before;
        assert forall p :: 0 <= p < |ids| - 1 ==> ids[|ids| - 1] != ids[p];
      }
      ViolationsInOrder(before, cards, maxCopies, restriction, cardName, k1, k2, p1, p2);
    } else {
      assert r[k2].cardId == ids[|ids| - 1];
      assert p2 == |ids| - 1;
      assert r[k1] == rb[k1];
      assert rb[k1].cardId in before;
      assert p1 != |ids| - 1;
    }
  }

  /** Index of the first entry with id `id`. */
  function FirstIndex(cards: seq<DeckCard>, id: int): (i: nat)
    requires exists i :: 0 <= i < |cards| && cards[i].cardId == id
    ensures i < |cards| && cards[i].cardId == id
    ensures forall j :: 0 <= j < i ==> cards[j].cardId != id
  {
    if cards[0].cardId == id then 0
    else
      assert exists i :: 0 <= i < |cards[1..]| && cards[1..][i].cardId == id by {
        var i :| 0 <= i < |cards| && cards[i].cardId == id;
        assert cards[1..][i - 1] == cards[i];
      }
      1 + FirstIndex(cards[1..], id)
  }

  /** The totals are listed in the order their cards first appear in the deck. */
  lemma {:induction false} FirstSeenOrdered(cards: seq<DeckCard>, p: int, q: int)
    requires 0 <= p < q < |FirstSeen(cards)|
    ensures FirstIndex(cards, FirstSeen(cards)[p]) < FirstIndex(cards, FirstSeen(cards)[q])
    decreases |cards|
  {
    var n := |cards|;
    var pre := cards[..n - 1];
    var before := FirstSeen(pre);
    var r := FirstSeen(cards);
    assert r[p] in before;
    FirstIndexOfPrefix(cards, r[p]);
    if q < |before| {
      FirstSeenOrdered(pre, p, q);
      FirstIndexOfPrefix(cards, r[q]);
    } else {
      assert r[q] == cards[n - 1].cardId && r[q] !in before;
      assert forall i :: 0 <= i < n - 1 ==> pre[i] == cards[i];
      assert FirstIndex(cards, r[q]) == n - 1;
    }
  }

  /** An id seen before the last entry is first seen at the same place without it. */
  lemma FirstIndexOfPrefix(cards: seq<DeckCard>, id: int)
    requires |cards| > 0 && id in FirstSeen(cards[..|cards| - 1])
    ensures id in FirstSeen(cards)
    ensures FirstIndex(cards, id) == FirstIndex(cards[..|cards| - 1], id)
  {
    var pre := cards[..|cards| - 1];
    var i := FirstIndex(pre, id);
    assert pre[i] == cards[i];
    assert forall j :: 0 <= j < i ==> pre[j] == cards[j];
  }


  /** `is_valid` holds exactly when every card of the deck is within its limit. */
  lemma DeckValidIff(name: string, cards: seq<DeckCard>, maxCopies: int -> int, restriction: int -> string,
                     cardName: int -> Option<string>)
    ensures var r := ValidateDeckSpec(Some(name), cards, maxCopies, restriction, cardName);
      && r.Ok? && r.value.banlistName == name
      && (r.value.isValid <==> forall i :: 0 <= i < |cards| ==> Total(cards, cards[i].cardId) <= maxCopies(cards[i].cardId))
  {
    var ids := FirstSeen(cards);
    var v := ViolationsOf(ids, cards, maxCopies, restriction, cardName);
    if |v| == 0 {
      forall i | 0 <= i < |cards| ensures Total(cards, cards[i].cardId) <= maxCopies(cards[i].cardId) {
        var id := cards[i].cardId;
        assert id in ids;
        ViolationIff(ids, cards, maxCopies, restriction, cardName, id);
      }
    } else {
      var id := v[0].cardId;
      assert Reported(v, id);
      ViolationIff(ids, cards, maxCopies, restriction, cardName, id);
      var i :| 0 <= i < |cards| && cards[i].cardId == id;
      assert Total(cards, cards[i].cardId) > maxCopies(cards[i].cardId);
    }
  }

  /** Adding an entry to the deck adds its quantity to that card's total and to no other. */
  lemma TotalSnoc(cards: seq<DeckCard>, c: DeckCard, id: int)
    ensures Total(cards + [c], id) == Total(cards, id) + (if c.cardId == id then c.quantity else 0)
  {
    assert (cards + [c])[..|cards|] == cards;
  }

  /** The `card_totals` loop: each card's total quantity, and the order the cards first appear in. */
  method CardTotals(all: seq<DeckCard>) returns (totals: map<int, int>, order: seq<int>)
    ensures order == FirstSeen(all)
    ensures forall id :: id in totals <==> id in order
    ensures forall id :: id in totals ==> totals[id] == Total(all, id)
  {
    totals := map[];
    order := [];
    var i := 0;
    while i < |all|
      invariant 0 <= i <= |all|
      invariant order == FirstSeen(all[..i])
      invariant forall id :: id in totals <==> id in order
      invariant forall id :: id in totals ==> totals[id] == Total(all[..i], id)
    {
      var c := all[i];
      assert all[..i + 1] == all[..i] + [c];
      assert all[..i + 1][..i] == all[..i];
      forall id ensures Total(all[..i + 1], id) == Total(all[..i], id) + (if c.cardId == id then c.quantity else 0) {
        TotalSnoc(all[..i], c, id);
      }
      if c.cardId in totals {
        totals := totals[c.cardId := totals[c.cardId] + c.quantity];
      } else {
        totals := totals[c.cardId := c.quantity];
        order := order + [c.cardId];
        assert Total(all[..i], c.cardId) == 0 by {
          TotalAbsent(all[..i], c.cardId);
        }
      }
      i := i + 1;
    }
    assert all[..i] == all;
  }

  /** `validate_deck_against_banlist`: the `card_totals` loop, then the violations loop. */
  method ValidateDeck(banlistName: Option<string>, mainDeck: seq<DeckCard>, extraDeck: seq<DeckCard>, sideDeck: seq<DeckCard>,
                      maxCopies: int -> int, restriction: int -> string, cardName: int -> Option<string>)
    returns (r: Result<DeckValidation, HttpError>)
    ensures r == ValidateDeckSpec(banlistName, AllCards(mainDeck, extraDeck, sideDeck), maxCopies, restriction, cardName)
  {
    if banlistName.None? {
      return Err(HttpError(404, "Banlist not found"));
    }
    var all := mainDeck + extraDeck + sideDeck;
    var totals, order := CardTotals(all);
    var violations: seq<Violation> := [];
    var isValid := true;
    var j := 0;
    while j < |order|
      invariant 0 <= j <= |order|
      invariant violations == ViolationsOf(order[..j], all, maxCopies, restriction, cardName)
      invariant isValid <==> |violations| == 0
    {
      assert order[..j + 1][..j] == order[..j];
      var id := order[j];
      var total := totals[id];
      var maxAllowed := maxCopies(id);
      if total > maxAllowed {
        isValid := false;
        violations := violations + [Violation(id, ViolationName(cardName, id), total, maxAllowed, restriction(id))];
      }
      j := j + 1;
    }
    assert order[..j] == order;
    r := Ok(DeckValidation(isValid, violations, banlistName.value));
  }

  /** A card that is not in the deck totals zero. */
  lemma {:induction false} TotalAbsent(cards: seq<DeckCard>, id: int)
    requires id !in FirstSeen(cards)
    ensures Total(cards, id) == 0
    decreases |cards|
  {
    if |cards| > 0 {
      var pre := cards[..|cards| - 1];
      assert forall i :: 0 <= i < |pre| ==> pre[i] == cards[i];
      TotalAbsent(pre, id);
    }
  }

  /** The restriction types `add_card_to_banlist` accepts. */
  const ValidRestrictions: seq<string> := ["forbidden", "limited", "semi_limited", "whitelist"]

  const InvalidRestrictionDetail: string :=
    "Invalid restriction type. Must be one of: forbidden, limited, semi_limited, whitelist"

  /**
   * `add_card_to_banlist` with its lookups and writes as inputs: whether the banlist was
   * found, the card's name if it exists, and whether adding and saving succeeded.
   */
  function AddCardToBanlist(restrictionType: string, banlistFound: bool, cardName: Option<string>, added: bool, saved: bool)
    : (r: Result<string, HttpError>)
    ensures r.Ok? <==> restrictionType in ValidRestrictions && banlistFound && cardName.Some? && added && saved
    ensures r.Ok? ==> r.value == "Card " + cardName.value + " added to " + restrictionType + " list"
    ensures r.Err? ==> r.error.status in {400, 404}
  {
    if restrictionType !in ValidRestrictions then Err(HttpError(400, InvalidRestrictionDetail))
    else if !banlistFound then Err(HttpError(404, "Banlist not found"))
    else if cardName.None? then Err(HttpError(404, "Card not found"))
    else if !added then Err(HttpError(400, "Failed to add card to banlist"))
    else if !saved then Err(HttpError(400, "Failed to save banlist"))
    else Ok("Card " + cardName.value + " added to " + restrictionType + " list")
  }

  /** An unknown restriction type is refused with 400 whatever the lookups would have said. */
  lemma InvalidRestrictionFirst(restrictionType: string, banlistFound: bool, cardName: Option<string>, added: bool, saved: bool)
    requires restrictionType !in ValidRestrictions
    ensures AddCardToBanlist(restrictionType, banlistFound, cardName, added, saved) == Err(HttpError(400, InvalidRestrictionDetail))
  {
  }
}
