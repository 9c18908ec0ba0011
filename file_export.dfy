/**
 * The export service of `file_export.py`: filename sanitisation, the YDK deck layout,
 * the binder CSV rows, the JSON deck entries and the guards of the `save_*` methods.
 * Files are modelled by the lines (or rows) written to them; the write itself is a
 * parameter that either succeeds or raises.
 */
module FileExport {
  import opened Common
  import opened Text

  // ---------------------------------------------------------------------------
  // Filename sanitisation
  // ---------------------------------------------------------------------------

  /** `char.isalnum() or char in [" ", "-", "_"]` keeps the character; anything else becomes `_`. */
  function SafeChar(c: char): char {
    if IsAlnum(c) || c == ' ' || c == '-' || c == '_' then c else '_'
  }

  /** `"".join(safe_chars)` after the character loop. */
  function SafeChars(s: string): (r: string)
    ensures |r| == |s|
    ensures forall i :: 0 <= i < |s| ==> r[i] == SafeChar(s[i])
  {
    seq(|s|, i requires 0 <= i < |s| => SafeChar(s[i]))
  }

  /** A character of the class `[_\s]`. */
  predicate IsGap(c: char) {
    c == '_' || IsSpace(c)
  }

  /**
   * `re.sub(r"[_\s]+", "_", s)`: every maximal run of underscores and whitespace becomes a
   * single `_`. A gap followed by another gap is dropped, so only the last one of a run is written.
   */
  function Collapse(s: string): (r: string)
    ensures s != [] ==> r != [] && (if IsGap(s[0]) then r[0] == '_' else r[0] == s[0])
  {
    if s == [] then []
    else if IsGap(s[0]) then
      if |s| > 1 && IsGap(s[1]) then Collapse(s[1..]) else "_" + Collapse(s[1..])
    else [s[0]] + Collapse(s[1..])
  }

  /** The characters of `s` that are not gaps, in order. */
  function NonGaps(s: string): string {
    if s == [] then [] else (if IsGap(s[0]) then [] else [s[0]]) + NonGaps(s[1..])
  }

  /**
   * What `Collapse` writes: `_` for each run of gaps, the other characters as they were and
   * in their order, and no `__`.
   */
  lemma {:induction false} CollapseShape(s: string)
    ensures var r := Collapse(s);
      && (forall i :: 0 <= i < |r| ==> r[i] == '_' || (!IsGap(r[i]) && r[i] in s))
      && NoDoubleUnderscore(r)
      && NonGaps(r) == NonGaps(s)
    decreases |s|
  {
    if s != [] {
      var t := s[1..];
      CollapseShape(t);
      var c := Collapse(t);
      assert forall x :: x in t ==> x in s;
      if IsGap(s[0]) && !(|s| > 1 && IsGap(s[1])) {
        var r := "_" + c;
        assert forall i :: 0 < i < |r| ==> r[i] == c[i - 1];
        assert r[1..] == c;
      } else if !IsGap(s[0]) {
        var r := [s[0]] + c;
        assert forall i :: 0 < i < |r| ==> r[i] == c[i - 1];
        assert r[1..] == c;
      }
    }
  }

  /** Every character of `g` is a gap. */
  predicate AllGaps(g: string) {
    forall i :: 0 <= i < |g| ==> IsGap(g[i])
  }

  /** A run of gaps in front of a non-gap (or of the end) is written as one `_`. */
  lemma {:induction false} CollapseGapRun(g: string, b: string)
    requires g != [] && AllGaps(g)
    requires b == [] || !IsGap(b[0])
    ensures Collapse(g + b) == "_" + Collapse(b)
    decreases |g|
  {
    var s := g + b;
    assert s[1..] == g[1..] + b;
    if |g| > 1 {
      assert IsGap(s[1]);
      CollapseGapRun(g[1..], b);
    } else {
      assert s[1..] == b;
    }
  }

  /** Text ending in a non-gap is collapsed apart from what follows it. */
  lemma {:induction false} CollapseSplit(a: string, rest: string)
    requires a == [] || !IsGap(a[|a| - 1])
    ensures Collapse(a + rest) == Collapse(a) + Collapse(rest)
    decreases |a|
  {
    if a != [] {
      var t := a[1..];
      assert (a + rest)[1..] == t + rest;
      CollapseSplit(t, rest);
      var head := if IsGap(a[0]) && IsGap(a[1]) then [] else if IsGap(a[0]) then "_" else [a[0]];
      if IsGap(a[0]) {
        assert (a + rest)[1] == t[0] == a[1];
      }
      assert Collapse(a) == head + Collapse(t);
      assert Collapse(a + rest) == head + Collapse(t + rest);
    } else {
      assert a + rest == rest;
    }
  }

  /**
   * `re.sub(r"[_\s]+", "_", ...)` replaces each maximal run of gaps by one `_`: a non-empty run
   * `g` between a non-gap (or the start) and a non-gap (or the end) is written as a single `_`,
   * and the text on each side is collapsed on its own.
   */
  lemma {:induction false} CollapseRun(a: string, g: string, b: string)
    requires g != [] && AllGaps(g)
    requires a == [] || !IsGap(a[|a| - 1])
    requires b == [] || !IsGap(b[0])
    ensures Collapse(a + g + b) == Collapse(a) + "_" + Collapse(b)
  {
    SeqAssoc(a, g, b);
    SeqAssoc(Collapse(a), "_", Collapse(b));
    CollapseSplit(a, g + b);
    CollapseGapRun(g, b);
  }

  /** Characters a sanitised name may hold. */
  predicate FileSafe(s: string) {
    forall i :: 0 <= i < |s| ==> IsAlnum(s[i]) || s[i] == '-' || s[i] == '_'
  }

  predicate NoDoubleUnderscore(s: string) {
    forall i :: 0 <= i < |s| - 1 ==> !(s[i] == '_' && s[i + 1] == '_')
  }

  /** What `_sanitize_filename` promises of its result. */
  predicate Clean(s: string) {
    && FileSafe(s)
    && NoDoubleUnderscore(s)
    && |s| <= 50
    && (s == [] || (s[0] != '_' && s[|s| - 1] != '_'))
  }

  /** The name `_sanitize_filename` works on: a missing or empty name is "unnamed". */
  function NameOrUnnamed(name: Option<string>): string {
    if name.None? || name.value == "" then "unnamed" else name.value
  }

  /** `_sanitize_filename(name)` */
  function Sanitized(name: Option<string>): string {
    StripChar(Prefix(Collapse(Trim(SafeChars(NameOrUnnamed(name)))), 50), '_')
  }

  /** `_sanitize_filename`, with its character loop. */
  method SanitizeFilename(name: Option<string>) returns (safe: string)
    ensures safe == Sanitized(name)
    ensures Clean(safe)
  {
    var n := if name.None? || name.value == "" then "unnamed" else name.value;
    var chars: string := [];
    var i := 0;
    while i < |n|
      invariant 0 <= i <= |n|
      invariant |chars| == i
      invariant forall k :: 0 <= k < i ==> chars[k] == SafeChar(n[k])
    {
      if IsAlnum(n[i]) || n[i] == ' ' || n[i] == '-' || n[i] == '_' {
        chars := chars + [n[i]];
      } else {
        chars := chars + ['_'];
      }
      i := i + 1;
    }
    assert chars == SafeChars(n);
    safe := Trim(chars);
    safe := Collapse(safe);
    if |safe| > 50 {
      safe := safe[..50];
    }
    safe := StripChar(safe, '_');
    SanitizedClean(name);
  }

  /** `StripChar(s, c)` is a slice of `s` that neither starts nor ends with `c`. */
  lemma StripCharIsSlice(s: string, c: char) returns (lo: nat, hi: nat)
    ensures lo <= hi <= |s| && StripChar(s, c) == s[lo..hi]
    ensures var r := StripChar(s, c); r == [] || (r[0] != c && r[|r| - 1] != c)
  {
    var l := DropLeft(s, x => x == c);
    DropLeftIsSuffix(s, x => x == c);
    DropRightIsPrefix(l, x => x == c);
    var r := DropRight(l, x => x == c);
    lo, hi := |s| - |l|, |s| - |l| + |r|;
    assert r == s[lo..hi];
    if r != [] {
      assert r[0] == l[0];
    }
  }

  /** Slices keep the character class and the no-`__` property. */
  lemma SliceKeeps(s: string, lo: nat, hi: nat)
    requires lo <= hi <= |s|
    ensures FileSafe(s) ==> FileSafe(s[lo..hi])
    ensures NoDoubleUnderscore(s) ==> NoDoubleUnderscore(s[lo..hi])
  {
    var t := s[lo..hi];
    assert forall i :: 0 <= i < |t| ==> t[i] == s[lo + i];
  }

  /** After the character loop and `strip()`, only letters, digits, ` `, `-` and `_` remain. */
  lemma TrimmedSafeChars(n: string)
    ensures forall i :: 0 <= i < |Trim(SafeChars(n))| ==>
      var c := Trim(SafeChars(n))[i]; IsAlnum(c) || c == ' ' || c == '-' || c == '_'
  {
    var lo, hi := TrimIsSlice(SafeChars(n));
    var t := Trim(SafeChars(n));
    forall i | 0 <= i < |t| ensures IsAlnum(t[i]) || t[i] == ' ' || t[i] == '-' || t[i] == '_' {
      assert t[i] == SafeChars(n)[lo + i] == SafeChar(n[lo + i]);
    }
  }

  /**
   * The result of `_sanitize_filename` holds only letters, digits, `-` and `_` (no whitespace),
   * is at most 50 characters long, has no `__` and neither starts nor ends with `_`.
   */
  lemma SanitizedClean(name: Option<string>)
    ensures Clean(Sanitized(name))
  {
    var n := NameOrUnnamed(name);
    var t := Trim(SafeChars(n));
    TrimmedSafeChars(n);
    var c := Collapse(t);
    CollapsedSafe(t);
    var p := Prefix(c, 50);
    SliceKeeps(c, 0, |p|);
    assert p == c[0..|p|];
    var lo, hi := StripCharIsSlice(p, '_');
    SliceKeeps(p, lo, hi);
  }

  /** Collapsing whitespace and underscores turns letters, digits, ` `, `-` and `_` into a file-safe name. */
  lemma CollapsedSafe(t: string)
    requires forall i :: 0 <= i < |t| ==> IsAlnum(t[i]) || t[i] == ' ' || t[i] == '-' || t[i] == '_'
    ensures FileSafe(Collapse(t)) && NoDoubleUnderscore(Collapse(t))
  {
    var c := Collapse(t);
    CollapseShape(t);
    forall i | 0 <= i < |c| ensures IsAlnum(c[i]) || c[i] == '-' || c[i] == '_' {
      if c[i] != '_' {
        var j :| 0 <= j < |t| && t[j] == c[i];
      }
    }
  }

  /** `Collapse` leaves alone a string with no whitespace and no `__`. */
  lemma {:induction false} CollapseOfClean(s: string)
    requires forall i :: 0 <= i < |s| ==> !IsSpace(s[i])
    requires NoDoubleUnderscore(s)
    ensures Collapse(s) == s
    decreases |s|
  {
    if s != [] {
      var t := s[1..];
      assert forall i :: 0 <= i < |t| ==> t[i] == s[i + 1];
      CollapseOfClean(t);
      if IsGap(s[0]) {
        assert s[0] == '_';
        assert !(|s| > 1 && IsGap(s[1]));
      }
      assert s == [s[0]] + t;
    }
  }

  /** `strip(c)` leaves alone a string that neither starts nor ends with `c`. */
  lemma StripCharOfStripped(s: string, c: char)
    requires s == [] || (s[0] != c && s[|s| - 1] != c)
    ensures StripChar(s, c) == s
  {
  }

  /** `_sanitize_filename` leaves a non-empty clean name unchanged. */
  lemma CleanIsFixed(r: string)
    requires Clean(r) && r != ""
    ensures Sanitized(Some(r)) == r
  {
    assert NameOrUnnamed(Some(r)) == r;
    assert SafeChars(r) == r by {
      forall i | 0 <= i < |r| ensures SafeChars(r)[i] == r[i] {
        assert SafeChar(r[i]) == r[i];
      }
    }
    assert IsTrimmed(r) by {
      assert !IsSpace(r[0]) && !IsSpace(r[|r| - 1]);
    }
    TrimOfTrimmed(r);
    assert forall i :: 0 <= i < |r| ==> !IsSpace(r[i]);
    CollapseOfClean(r);
    assert Prefix(r, 50) == r;
    StripCharOfStripped(r, '_');
  }

  /** Sanitising a non-empty sanitised name returns it unchanged. */
  lemma SanitizedIdempotent(name: Option<string>)
    requires Sanitized(name) != ""
    ensures Sanitized(Some(Sanitized(name))) == Sanitized(name)
  {
    SanitizedClean(name);
    CleanIsFixed(Sanitized(name));
  }

  /** A missing or empty name is saved as "unnamed". */
  lemma SanitizedUnnamed()
    ensures Sanitized(None) == "unnamed"
    ensures Sanitized(Some("")) == "unnamed"
  {
    var u := "unnamed";
    assert Clean(u);
    CleanIsFixed(u);
    assert NameOrUnnamed(None) == NameOrUnnamed(Some("")) == NameOrUnnamed(Some(u));
  }

  /** The result can be empty: a name made only of punctuation sanitises to "". */
  lemma SanitizedCanBeEmpty()
    ensures Sanitized(Some("!!")) == ""
  {
    assert SafeChars("!!") == "__";
    assert IsTrimmed("__");
    TrimOfTrimmed("__");
    assert Collapse("__") == "_";
    assert Prefix("_", 50) == "_";
  }

  // ---------------------------------------------------------------------------
  // YDK deck files
  // ---------------------------------------------------------------------------

  /** A deck's card row: `card_id`, `quantity` and the cached name. */
  datatype DeckCard = DeckCard(cardId: int, quantity: int, cardName: Option<string>)

  /** The fields of a `Deck` the exports read. */
  datatype Deck = Deck(
    id: Option<int>, uuid: string, name: string, description: Option<string>, format: Option<string>,
    main: seq<DeckCard>, extra: seq<DeckCard>, side: seq<DeckCard>)

  /** Python truthiness of an optional string: present and not empty. */
  predicate Truthy(s: Option<string>) {
    s.Some? && s.value != ""
  }

  /** `not deck or not deck.id` fails: the deck exists and has an id other than 0. */
  predicate Saveable(deck: Option<Deck>) {
    deck.Some? && deck.value.id.Some? && deck.value.id.value != 0
  }

  /** The header lines of a YDK file; `generated` is the `isoformat()` of the clock. */
  function YdkHeader(deck: Deck, generated: string): (r: seq<string>)
    ensures |r| == 4 + (if Truthy(deck.description) then 1 else 0) + (if Truthy(deck.format) then 1 else 0)
    ensures r[0] == "#created by Yu-Gi-Oh Deck Builder" && r[1] == "# Deck: " + deck.name
    ensures r[|r| - 2] == "# Generated: " + generated && r[|r| - 1] == ""
    ensures Truthy(deck.description) ==> r[2] == "# Description: " + deck.description.value
    ensures Truthy(deck.format) ==> r[|r| - 3] == "# Format: " + deck.format.value
  {
    ["#created by Yu-Gi-Oh Deck Builder", "# Deck: " + deck.name]
    + (if Truthy(deck.description) then ["# Description: " + deck.description.value] else [])
    + (if Truthy(deck.format) then ["# Format: " + deck.format.value] else [])
    + ["# Generated: " + generated, ""]
  }

  /** `line` written `n` times; `range(n)` is empty when `n <= 0`. */
  function Repeat(line: string, n: int): (r: seq<string>)
    ensures |r| == if n <= 0 then 0 else n
    ensures forall k :: 0 <= k < |r| ==> r[k] == line
    decreases n
  {
    if n <= 0 then [] else Repeat(line, n - 1) + [line]
  }

  /** The id lines of one section: each card's id, `quantity` times, card after card. */
  function SectionIds(cards: seq<DeckCard>): seq<string> {
    if cards == [] then []
    else
      var last := cards[|cards| - 1];
      SectionIds(cards[..|cards| - 1]) + Repeat(IntToString(last.cardId), last.quantity)
  }

  function Copies(q: int): nat {
    if q <= 0 then 0 else q
  }

  /** The number of copies `range(quantity)` writes, summed over a section. */
  function TotalCopies(cards: seq<DeckCard>): nat {
    if cards == [] then 0 else TotalCopies(cards[..|cards| - 1]) + Copies(cards[|cards| - 1].quantity)
  }

  /** The copies of one card id in a section. */
  function CopiesOf(cards: seq<DeckCard>, id: int): nat {
    if cards == [] then 0
    else
      var last := cards[|cards| - 1];
      CopiesOf(cards[..|cards| - 1], id) + (if last.cardId == id then Copies(last.quantity) else 0)
  }

  /** The whole YDK file, one string per line written. */
  function YdkLines(deck: Deck, generated: string): (r: seq<string>)
    ensures |r| == |YdkHeader(deck, generated)| + 3 + TotalCopies(deck.main) + TotalCopies(deck.extra) + TotalCopies(deck.side)
    ensures r[..|YdkHeader(deck, generated)|] == YdkHeader(deck, generated)
  {
    SectionIdsCount(deck.main);
    SectionIdsCount(deck.extra);
    SectionIdsCount(deck.side);
    YdkHeader(deck, generated)
    + ["#main"] + SectionIds(deck.main)
    + ["#extra"] + SectionIds(deck.extra)
    + ["!side"] + SectionIds(deck.side)
  }

  /** A section has one line per copy. */
  lemma {:induction false} SectionIdsCount(cards: seq<DeckCard>)
    ensures |SectionIds(cards)| == TotalCopies(cards)
    decreases |cards|
  {
    if cards != [] {
      SectionIdsCount(cards[..|cards| - 1]);
    }
  }

  /** A section holds the id of a card exactly as many times as its copies. */
  lemma {:induction false} SectionIdsCopies(cards: seq<DeckCard>, id: int)
    ensures multiset(SectionIds(cards))[IntToString(id)] == CopiesOf(cards, id)
    decreases |cards|
  {
    if cards != [] {
      var last := cards[|cards| - 1];
      SectionIdsCopies(cards[..|cards| - 1], id);
      RepeatCount(IntToString(last.cardId), last.quantity, IntToString(id));
      if last.cardId != id {
        ParseIntOfIntToString(last.cardId);
        ParseIntOfIntToString(id);
      }
    }
  }

  lemma {:induction false} RepeatCount(line: string, n: int, x: string)
    ensures multiset(Repeat(line, n))[x] == if x == line then Copies(n) else 0
    decreases n
  {
    if n > 0 {
      RepeatCount(line, n - 1, x);
    }
  }

  /** Every line of a section is the id of one of its cards. */
  lemma {:induction false} SectionIdsFromCards(cards: seq<DeckCard>)
    ensures forall k :: 0 <= k < |SectionIds(cards)| ==>
      exists c :: c in cards && SectionIds(cards)[k] == IntToString(c.cardId)
    decreases |cards|
  {
    if cards != [] {
      var init := cards[..|cards| - 1];
      var last := cards[|cards| - 1];
      SectionIdsFromCards(init);
      var a := SectionIds(init);
      var b := Repeat(IntToString(last.cardId), last.quantity);
      assert SectionIds(cards) == a + b;
      var r := SectionIds(cards);
      forall k | 0 <= k < |r| ensures exists c :: c in cards && r[k] == IntToString(c.cardId) {
        if k < |a| {
          var c :| c in init && a[k] == IntToString(c.cardId);
          var i :| 0 <= i < |init| && init[i] == c;
          assert cards[i] == c && r[k] == a[k];
        } else {
          assert r[k] == b[k - |a|] == IntToString(last.cardId);
          assert cards[|cards| - 1] == last;
        }
      }
    } else {
      assert SectionIds(cards) == [];
    }
  }

  /** One more card extends a section by that card's copies. */
  lemma SectionIdsStep(cards: seq<DeckCard>, i: nat)
    requires i < |cards|
    ensures SectionIds(cards[..i + 1]) == SectionIds(cards[..i]) + Repeat(IntToString(cards[i].cardId), cards[i].quantity)
  {
    assert cards[..i + 1][..i] == cards[..i];
  }

  /** The inner loop of a section: `line` written once for each of `range(quantity)`. */
  method WriteCopies(lines: seq<string>, line: string, quantity: int) returns (out: seq<string>)
    ensures out == lines + Repeat(line, quantity)
  {
    out := lines;
    var j := 0;
    while j < quantity
      invariant 0 <= j && (quantity <= 0 ==> j == 0) && (quantity > 0 ==> j <= quantity)
      invariant out == lines + Repeat(line, j)
    {
      assert Repeat(line, j + 1) == Repeat(line, j) + [line];
      out := out + [line];
      j := j + 1;
    }
    assert Repeat(line, j) == Repeat(line, quantity);
  }

  /** The section loop of `save_deck_as_ydk`: the tag, then each card id `quantity` times. */
  method WriteSection(lines: seq<string>, tag: string, cards: seq<DeckCard>) returns (out: seq<string>)
    ensures out == lines + [tag] + SectionIds(cards)
  {
    out := lines + [tag];
    var i := 0;
    while i < |cards|
      invariant 0 <= i <= |cards|
      invariant out == lines + [tag] + SectionIds(cards[..i])
    {
      var card := cards[i];
      var line := IntToString(card.cardId);
      out := WriteCopies(out, line, card.quantity);
      SectionIdsStep(cards, i);
      i := i + 1;
    }
    assert cards[..i] == cards;
  }

  /** A file that was written: its path and its lines. */
  datatype Saved<L> = Saved(path: string, lines: seq<L>)

  /**
   * `save_deck_as_ydk`: `None` for a missing deck, a deck without id, or a write that raises;
   * otherwise the path `base/decklists/<sanitised name>.ydk` and the lines written.
   */
  method SaveDeckAsYdk(base: string, deck: Option<Deck>, generated: string, writeOk: bool)
    returns (saved: Option<Saved<string>>)
    ensures saved.Some? <==> Saveable(deck) && writeOk
    ensures saved.Some? ==> saved.value.path == base + "/decklists/" + Sanitized(Some(deck.value.name)) + ".ydk"
    ensures saved.Some? ==> saved.value.lines == YdkLines(deck.value, generated)
  {
    if deck.None? || deck.value.id.None? || deck.value.id.value == 0 {
      return None;
    }
    var d := deck.value;
    var safe := SanitizeFilename(Some(d.name));
    var path := base + "/decklists/" + safe + ".ydk";
    if !writeOk {
      return None;
    }
    var lines := YdkHeader(d, generated);
    lines := WriteSection(lines, "#main", d.main);
    lines := WriteSection(lines, "#extra", d.extra);
    lines := WriteSection(lines, "!side", d.side);
    return Some(Saved(path, lines));
  }

  /** The main section of a YDK file starts right after the header and has one line per copy. */
  lemma YdkMainSection(deck: Deck, generated: string)
    ensures var h := |YdkHeader(deck, generated)|; var lines := YdkLines(deck, generated);
      && lines[h] == "#main"
      && lines[h + 1 + |SectionIds(deck.main)|] == "#extra"
      && lines[h + 2 + |SectionIds(deck.main)| + |SectionIds(deck.extra)|] == "!side"
      && |lines| == h + 3 + TotalCopies(deck.main) + TotalCopies(deck.extra) + TotalCopies(deck.side)
  {
    SectionIdsCount(deck.main);
    SectionIdsCount(deck.extra);
    SectionIdsCount(deck.side);
    var h := YdkHeader(deck, generated);
    var m, e, d := SectionIds(deck.main), SectionIds(deck.extra), SectionIds(deck.side);
    var lines := YdkLines(deck, generated);
    assert lines == h + ["#main"] + m + ["#extra"] + e + ["!side"] + d;
    assert lines[|h|] == "#main";
    assert lines[|h| + 1 + |m|] == "#extra";
    assert lines[|h| + 2 + |m| + |e|] == "!side";
  }

  // ---------------------------------------------------------------------------
  // JSON deck backups
  // ---------------------------------------------------------------------------

  /** One `{"card_id", "quantity", "card_name"}` entry of a JSON deck backup. */
  datatype JsonCard = JsonCard(cardId: int, quantity: int, cardName: Option<string>)

  /** One JSON entry per card of a section, in order. */
  function JsonOf(cards: seq<DeckCard>): (r: seq<JsonCard>)
    ensures |r| == |cards|
    ensures forall k :: 0 <= k < |cards| ==> r[k] == JsonCard(cards[k].cardId, cards[k].quantity, cards[k].cardName)
  {
    seq(|cards|, k requires 0 <= k < |cards| => JsonCard(cards[k].cardId, cards[k].quantity, cards[k].cardName))
  }

  /** The entry loop of `save_deck_as_json` over one section. */
  method JsonEntries(cards: seq<DeckCard>) returns (entries: seq<JsonCard>)
    ensures entries == JsonOf(cards)
  {
    entries := [];
    for i := 0 to |cards|
      invariant |entries| == i
      invariant forall k :: 0 <= k < i ==> entries[k] == JsonCard(cards[k].cardId, cards[k].quantity, cards[k].cardName)
    {
      entries := entries + [JsonCard(cards[i].cardId, cards[i].quantity, cards[i].cardName)];
    }
    assert entries == JsonOf(cards);
  }

  /**
   * `save_deck_as_json`: the same guards as the YDK export; the three section lists, main,
   * extra and side, are the lines of the saved file. The JSON encoding and the deck's
   * metadata fields are not modelled.
   */
  method SaveDeckAsJson(base: string, deck: Option<Deck>, writeOk: bool) returns (saved: Option<Saved<seq<JsonCard>>>)
    ensures saved.Some? <==> Saveable(deck) && writeOk
    ensures saved.Some? ==> saved.value.path == base + "/decklists/" + Sanitized(Some(deck.value.name)) + ".json"
    ensures saved.Some? ==> saved.value.lines == [JsonOf(deck.value.main), JsonOf(deck.value.extra), JsonOf(deck.value.side)]
  {
    if deck.None? || deck.value.id.None? || deck.value.id.value == 0 {
      return None;
    }
    var d := deck.value;
    var safe := SanitizeFilename(Some(d.name));
    var path := base + "/decklists/" + safe + ".json";
    var main := JsonEntries(d.main);
    var extra := JsonEntries(d.extra);
    var side := JsonEntries(d.side);
    if !writeOk {
      return None;
    }
    return Some(Saved(path, [main, extra, side]));
  }

  // ---------------------------------------------------------------------------
  // Binder CSV files
  // ---------------------------------------------------------------------------

  /** A binder's card row as `binder.get_cards()` returns it. */
  datatype BinderCard = BinderCard(
    cardId: int, cardName: Option<string>, quantity: int, setCode: Option<string>, rarity: Option<string>,
    condition: Option<string>, edition: Option<string>, notes: Option<string>)

  /** The cached card details `Card.get_by_id(..., fetch_if_missing=False)` returns. */
  datatype CardDetails = CardDetails(
    name: string, cardType: string, attribute: string, race: string,
    level: Option<int>, atk: Option<int>, def: Option<int>)

  /** The binder fields the CSV export reads. */
  datatype Binder = Binder(id: Option<int>, name: string, cards: seq<BinderCard>)

  const CsvFields: seq<string> := [
    "Card ID", "Card Name", "Quantity", "Set Code", "Rarity", "Condition", "Edition", "Notes",
    "Type", "Attribute", "Race", "Level", "ATK", "DEF"]

  /** `value or ""` */
  function OrEmpty(s: Option<string>): string {
    if s.Some? then s.value else ""
  }

  /** How the csv writer renders an optional number: `None` is written as "". */
  function NumberField(n: Option<int>): string {
    if n.Some? then IntToString(n.value) else ""
  }

  /** `binder_card.card_name or (card_details.name if card_details else f"Card {card_id}")` */
  function CardNameField(card: BinderCard, details: Option<CardDetails>): (r: string)
    ensures Truthy(card.cardName) ==> r == card.cardName.value
    ensures !Truthy(card.cardName) && details.Some? ==> r == details.value.name
    ensures !Truthy(card.cardName) && details.None? ==> r == "Card " + IntToString(card.cardId)
  {
    if Truthy(card.cardName) then card.cardName.value
    else if details.Some? then details.value.name
    else "Card " + IntToString(card.cardId)
  }

  /** The first eight fields of a card's row: the binder card's own fields. */
  function CardFields(card: BinderCard, details: Option<CardDetails>): seq<string> {
    [ IntToString(card.cardId), CardNameField(card, details), IntToString(card.quantity),
      OrEmpty(card.setCode), OrEmpty(card.rarity),
      if Truthy(card.condition) then card.condition.value else "Near Mint",
      OrEmpty(card.edition), OrEmpty(card.notes) ]
  }

  /** The last six fields of a card's row: the looked-up card details, or empty. */
  function DetailFields(details: Option<CardDetails>): seq<string> {
    match details
    case None => ["", "", "", "", "", ""]
    case Some(d) =>
      [d.cardType, d.attribute, d.race, NumberField(d.level), NumberField(d.atk), NumberField(d.def)]
  }

  /** The row `save_binder_as_csv` writes for a card, in the order of `CsvFields`. */
  function CsvRow(card: BinderCard, details: Option<CardDetails>): (r: seq<string>)
    ensures |r| == |CsvFields|
  {
    CardFields(card, details) + DetailFields(details)
  }

  /**
   * A row holds the card id, its name (looked up or kept), the quantity and the condition
   * ("Near Mint" when empty) in the columns `CsvFields` names, and empty detail columns when
   * the card is not found.
   */
  lemma CsvRowFields(card: BinderCard, details: Option<CardDetails>)
    ensures var r := CsvRow(card, details);
      && CsvFields[0] == "Card ID" && r[0] == IntToString(card.cardId)
      && CsvFields[1] == "Card Name" && r[1] == CardNameField(card, details)
      && CsvFields[2] == "Quantity" && r[2] == IntToString(card.quantity)
      && CsvFields[5] == "Condition" && r[5] == (if Truthy(card.condition) then card.condition.value else "Near Mint")
      && (details.None? ==> forall k :: 8 <= k < |r| ==> r[k] == "")
  {
    var r := CsvRow(card, details);
    var a := CardFields(card, details);
    assert r[..8] == a;
    assert r[8..] == DetailFields(details);
  }

  /** The data rows of a binder's CSV file, one per card. */
  function BinderRows(cards: seq<BinderCard>, details: int -> Option<CardDetails>): (r: seq<seq<string>>)
    ensures |r| == |cards| && forall k :: 0 <= k < |cards| ==> r[k] == CsvRow(cards[k], details(cards[k].cardId))
  {
    seq(|cards|, k requires 0 <= k < |cards| => CsvRow(cards[k], details(cards[k].cardId)))
  }

  lemma BinderRowsStep(cards: seq<BinderCard>, details: int -> Option<CardDetails>, i: nat)
    requires i < |cards|
    ensures BinderRows(cards[..i + 1], details) == BinderRows(cards[..i], details) + [CsvRow(cards[i], details(cards[i].cardId))]
  {
    var a := BinderRows(cards[..i + 1], details);
    var b := BinderRows(cards[..i], details) + [CsvRow(cards[i], details(cards[i].cardId))];
    assert |a| == |b|;
    forall k | 0 <= k < |a| ensures a[k] == b[k] {
      assert cards[..i + 1][k] == cards[k];
    }
  }

  /** The row loop of `save_binder_as_csv`: the header row, then each card's row. */
  method WriteRows(cards: seq<BinderCard>, details: int -> Option<CardDetails>) returns (rows: seq<seq<string>>)
    ensures rows == [CsvFields] + BinderRows(cards, details)
  {
    rows := [CsvFields];
    for i := 0 to |cards|
      invariant rows == [CsvFields] + BinderRows(cards[..i], details)
    {
      var card := cards[i];
      BinderRowsStep(cards, details, i);
      rows := rows + [CsvRow(card, details(card.cardId))];
    }
    assert cards[..|cards|] == cards;
  }

  /**
   * `save_binder_as_csv`: the header row, then one row per card, looked up in `details`.
   * A binder without cards gets the header row alone. The CSV quoting is not modelled.
   */
  method SaveBinderAsCsv(base: string, binder: Option<Binder>, details: int -> Option<CardDetails>, writeOk: bool)
    returns (saved: Option<Saved<seq<string>>>)
    ensures saved.Some? <==> binder.Some? && binder.value.id.Some? && binder.value.id.value != 0 && writeOk
    ensures saved.Some? ==> saved.value.path == base + "/binders/" + Sanitized(Some(binder.value.name)) + ".csv"
    ensures saved.Some? ==> saved.value.lines == [CsvFields] + BinderRows(binder.value.cards, details)
  {
    if binder.None? || binder.value.id.None? || binder.value.id.value == 0 {
      return None;
    }
    var b := binder.value;
    var safe := SanitizeFilename(Some(b.name));
    var path := base + "/binders/" + safe + ".csv";
    if !writeOk {
      return None;
    }
    var rows := WriteRows(b.cards, details);
    return Some(Saved(path, rows));
  }
}
