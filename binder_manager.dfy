/**
 * The decisions of the YGOProg command-line client `ygoprog_binder_manager.py`: when a stored
 * bearer token counts as valid, how loading and logging in change the token, how a CSV row
 * becomes a card to upload, how `remove_card` finds its card and what delta it sends, and
 * which filename and card count an export reports.
 *
 * Every HTTP exchange is a parameter: the outcome the server (or the `requests` library)
 * gives the call. The clock is the parameter `now`, in seconds.
 */
module BinderManager {
  import opened Common
  import opened Text

  // ---------------------------------------------------------------------------
  // Authentication
  // ---------------------------------------------------------------------------

  /** The decoded JWT payload; only its `exp` claim (seconds since the epoch) matters here. */
  datatype Claims = Claims(exp: Option<real>)

  /** Five minutes, the margin `is_token_valid` keeps before the expiry. */
  const ExpiryBuffer: real := 300.0

  /** A Python string is truthy when it is present and not empty. */
  predicate Given(s: Option<string>) {
    s.Some? && s.value != ""
  }

  /**
   * `is_token_valid` on a token and its decoded payload: both present, an `exp` claim that is
   * present and not 0, and an expiry more than five minutes after `now`.
   */
  predicate TokenValid(token: Option<string>, data: Option<Claims>, now: real) {
    && Given(token)
    && data.Some? && data.value.exp.Some? && data.value.exp.value != 0.0
    && data.value.exp.value > now + ExpiryBuffer
  }

  /** A token valid now was valid at every earlier moment. */
  lemma ValidEarlier(token: Option<string>, data: Option<Claims>, now: real, earlier: real)
    requires TokenValid(token, data, now) && earlier <= now
    ensures TokenValid(token, data, earlier)
  {
  }

  /** A token stops being valid five minutes before it expires, and one without expiry never is. */
  lemma InvalidWithinBuffer(token: Option<string>, data: Option<Claims>, now: real)
    ensures data.Some? && data.value.exp.Some? && now >= data.value.exp.value - ExpiryBuffer ==>
      !TokenValid(token, data, now)
    ensures (data.None? || data.value.exp.None? || data.value.exp == Some(0.0) || !Given(token)) ==>
      !TokenValid(token, data, now)
  {
  }

  /** What `load_token` finds in the token file. */
  datatype TokenFile =
    | NoFile                                           // `os.path.exists` is false
    | Unreadable                                       // `open`, `json.load` or `.get` raises
    | Stored(token: Option<string>, decoded: Option<Claims>)

  /** What `login` gets back from `POST /api/login`. */
  datatype LoginResponse =
    | Rejected                                         // a request error, a status other than 200, or `success` false
    | Accepted(token: Option<string>, decoded: Option<Claims>)  // `decoded` is `None` when the JWT does not decode

  /** `YGOProgAuth`: the bearer token and its decoded payload. */
  class Auth {
    var token: Option<string>
    var tokenData: Option<Claims>

    /** `is_token_valid` */
    predicate IsTokenValid(now: real)
      reads this
    {
      TokenValid(token, tokenData, now)
    }

    /** `get_token`: the token exactly when it is valid. */
    function GetToken(now: real): (r: Option<string>)
      reads this
      ensures r.Some? <==> TokenValid(token, tokenData, now)
      ensures r.Some? ==> r == token && r.value != ""
    {
      if IsTokenValid(now) then token else None
    }

    /** `__init__`: no token, then `load_token`. */
    constructor(file: TokenFile, now: real)
      ensures file.Stored? && TokenValid(file.token, file.decoded, now) ==>
        token == file.token && tokenData == file.decoded
      ensures !(file.Stored? && TokenValid(file.token, file.decoded, now)) ==> token == None && tokenData == None
    {
      token := None;
      tokenData := None;
      new;
      LoadToken(file, now);
    }

    /** `load_token`: adopt the stored token, and drop both fields again when it is not valid. */
    method LoadToken(file: TokenFile, now: real)
      modifies this
      ensures !file.Stored? ==> token == old(token) && tokenData == old(tokenData)
      ensures file.Stored? && TokenValid(file.token, file.decoded, now) ==>
        token == file.token && tokenData == file.decoded
      ensures file.Stored? && !TokenValid(file.token, file.decoded, now) ==> token == None && tokenData == None
      ensures file.Stored? ==> (token.Some? <==> IsTokenValid(now))
    {
      if !file.Stored? {
        return;
      }
      token := file.token;
      tokenData := file.decoded;
      if !IsTokenValid(now) {
        token := None;
        tokenData := None;
      }
    }

    /**
     * `login`: an accepted login stores the returned token (even a missing one) and, when the
     * token decodes, its payload; it succeeds exactly when a token came back.
     */
    method Login(response: LoginResponse) returns (ok: bool)
      modifies this
      ensures ok <==> response.Accepted? && Given(response.token)
      ensures response.Rejected? ==> token == old(token) && tokenData == old(tokenData)
      ensures response.Accepted? ==> token == response.token
      ensures response.Accepted? && Given(response.token) && response.decoded.Some? ==> tokenData == response.decoded
      ensures response.Accepted? && !(Given(response.token) && response.decoded.Some?) ==> tokenData == old(tokenData)
    {
      if response.Rejected? {
        return false;
      }
      token := response.token;
      if Given(token) {
        if response.decoded.Some? {
          tokenData := response.decoded;
        }
        return true;
      }
      return false;
    }

    /**
     * `ensure_valid_token`: true at once when the token is valid; otherwise the result of
     * logging in when both a username and a password are given, and false when either is missing.
     */
    method EnsureValidToken(username: Option<string>, password: Option<string>, now: real, response: LoginResponse)
      returns (ok: bool)
      modifies this
      ensures old(IsTokenValid(now)) ==> ok && token == old(token) && tokenData == old(tokenData)
      ensures !old(IsTokenValid(now)) && !(Given(username) && Given(password)) ==>
        !ok && token == old(token) && tokenData == old(tokenData)
      ensures !old(IsTokenValid(now)) && Given(username) && Given(password) ==>
        && (ok <==> response.Accepted? && Given(response.token))
        && (response.Rejected? ==> token == old(token) && tokenData == old(tokenData))
        && (response.Accepted? ==> token == response.token)
        && (response.Accepted? && Given(response.token) && response.decoded.Some? ==> tokenData == response.decoded)
        && (response.Accepted? && !(Given(response.token) && response.decoded.Some?) ==> tokenData == old(tokenData))
    {
      if IsTokenValid(now) {
        return true;
      }
      if Given(username) && Given(password) {
        ok := Login(response);
      } else {
        ok := false;
      }
    }
  }

  // ---------------------------------------------------------------------------
  // CSV import
  // ---------------------------------------------------------------------------

  /**
   * A row of `csv.DictReader`: column name to cell. A row shorter than the header has `None`
   * in its missing columns; a longer one keeps its extra cells under the key `None`, which
   * no `row.get` of the import reads, so they are not modelled.
   */
  type CsvRow = map<string, Option<string>>

  /** `row.get(key, default)` on a column that holds text, or that the row lacks. */
  function Cell(row: CsvRow, key: string, default: string): string {
    if key in row && row[key].Some? then row[key].value else default
  }

  /** `row.get(key, default).strip()` does not raise: the column is absent or holds text. */
  predicate Strippable(row: CsvRow, key: string) {
    key !in row || row[key].Some?
  }

  /** The six reads of a row all succeed; a `None` cell makes `.strip()` raise AttributeError. */
  predicate Readable(row: CsvRow) {
    && Strippable(row, "cardname") && Strippable(row, "cardid") && Strippable(row, "cardq")
    && Strippable(row, "cardrarity") && Strippable(row, "cardset") && Strippable(row, "cardcode")
  }

  /** Every row of the file can be read. */
  predicate AllReadable(rows: seq<CsvRow>) {
    forall k :: 0 <= k < |rows| ==> Readable(rows[k])
  }

  /** A card in the upload format of `PUT /api/binder/{id}/cards`. */
  datatype Card = Card(name: string, cardId: nat, count: nat, rarity: string, cardSet: string, code: string)

  /** `x if x else default` */
  function OrDefault(s: string, default: string): string {
    if s == "" then default else s
  }

  /**
   * The card a row becomes in `import_csv_to_binder`, or `None` when the row is skipped: its
   * stripped `cardname` is empty or its stripped `cardid` is not all digits.
   */
  function CardOfRow(row: CsvRow): Option<Card> {
    var name := Trim(Cell(row, "cardname", ""));
    var cardId := Trim(Cell(row, "cardid", ""));
    var count := Trim(Cell(row, "cardq", "1"));
    if name == "" || !AllDigits(cardId) then None
    else
      Some(Card(name, DigitsValue(cardId), if AllDigits(count) then DigitsValue(count) else 1,
                OrDefault(Trim(Cell(row, "cardrarity", "")), "Unknown"),
                OrDefault(Trim(Cell(row, "cardset", "")), "Unknown"),
                Trim(Cell(row, "cardcode", ""))))
  }

  /**
   * A row is kept exactly when its name and id pass; a kept card has the trimmed name and the
   * id's value, a blank rarity or set becomes "Unknown", and the code is the trimmed cell.
   */
  lemma CardOfRowFields(row: CsvRow)
    ensures var cardId := Trim(Cell(row, "cardid", ""));
      CardOfRow(row).Some? <==> Trim(Cell(row, "cardname", "")) != "" && AllDigits(cardId)
    ensures CardOfRow(row).Some? ==> var c := CardOfRow(row).value;
      && c.name == Trim(Cell(row, "cardname", "")) && c.name != ""
      && c.cardId == DigitsValue(Trim(Cell(row, "cardid", "")))
      && c.rarity != "" && c.cardSet != ""
      && (Trim(Cell(row, "cardrarity", "")) == "" ==> c.rarity == "Unknown")
      && (Trim(Cell(row, "cardrarity", "")) != "" ==> c.rarity == Trim(Cell(row, "cardrarity", "")))
      && (Trim(Cell(row, "cardset", "")) == "" ==> c.cardSet == "Unknown")
      && (Trim(Cell(row, "cardset", "")) != "" ==> c.cardSet == Trim(Cell(row, "cardset", "")))
      && c.code == Trim(Cell(row, "cardcode", ""))
  {
  }

  /** A missing `cardq` column, or one that is not all digits, gives one copy; digits give their value. */
  lemma CardCount(row: CsvRow)
    requires CardOfRow(row).Some?
    ensures "cardq" !in row ==> CardOfRow(row).value.count == 1
    ensures var q := Trim(Cell(row, "cardq", "1"));
      && (!AllDigits(q) ==> CardOfRow(row).value.count == 1)
      && (AllDigits(q) ==> CardOfRow(row).value.count == DigitsValue(q))
  {
    if "cardq" !in row {
      assert Trim("1") == "1" by { TrimOfTrimmed("1"); }
    }
  }

  /** A leading zero does not change the id: "07" and "7" are the same card. */
  lemma {:induction false} LeadingZerosIgnored(s: string)
    requires AllDigits(s)
    ensures AllDigits("0" + s) && DigitsValue("0" + s) == DigitsValue(s)
    decreases |s|
  {
    var z := "0" + s;
    var init := s[..|s| - 1];
    if init == [] {
      assert z[..|z| - 1] == "0" && "0"[..0] == [];
    } else {
      LeadingZerosIgnored(init);
      assert z[..|z| - 1] == "0" + init;
    }
  }

  /** The cards `import_csv_to_binder` collects, in file order. */
  function CardsOfRows(rows: seq<CsvRow>): (r: seq<Card>)
    ensures |r| <= |rows|
  {
    if rows == [] then []
    else
      var card := CardOfRow(rows[|rows| - 1]);
      CardsOfRows(rows[..|rows| - 1]) + (if card.Some? then [card.value] else [])
  }

  /** Every collected card is the card of one of the rows. */
  lemma {:induction false} CardsOfRowsSound(rows: seq<CsvRow>)
    ensures forall c :: c in CardsOfRows(rows) ==> exists k :: 0 <= k < |rows| && CardOfRow(rows[k]) == Some(c)
    decreases |rows|
  {
    if rows != [] {
      var init := rows[..|rows| - 1];
      CardsOfRowsSound(init);
      forall c | c in CardsOfRows(rows) ensures exists k :: 0 <= k < |rows| && CardOfRow(rows[k]) == Some(c) {
        if c in CardsOfRows(init) {
          var k :| 0 <= k < |init| && CardOfRow(init[k]) == Some(c);
          assert CardOfRow(rows[k]) == Some(c);
        } else {
          assert CardOfRow(rows[|rows| - 1]) == Some(c);
        }
      }
    }
  }

  /** Every kept row contributes its card. */
  lemma {:induction false} CardsOfRowsComplete(rows: seq<CsvRow>, k: nat)
    requires k < |rows| && CardOfRow(rows[k]).Some?
    ensures CardOfRow(rows[k]).value in CardsOfRows(rows)
    decreases |rows|
  {
    if k < |rows| - 1 {
      var init := rows[..|rows| - 1];
      assert CardOfRow(init[k]) == CardOfRow(rows[k]);
      CardsOfRowsComplete(init, k);
    }
  }

  /**
   * The row loop of `import_csv_to_binder`: appends the card of every kept row, and stops with
   * `readable` false at the first row whose reads raise.
   */
  method CollectCards(rows: seq<CsvRow>) returns (readable: bool, cards: seq<Card>)
    ensures readable <==> AllReadable(rows)
    ensures readable ==> cards == CardsOfRows(rows)
  {
    readable, cards := true, [];
    for i := 0 to |rows|
      invariant cards == CardsOfRows(rows[..i])
      invariant forall k :: 0 <= k < i ==> Readable(rows[k])
    {
      assert rows[..i + 1][..i] == rows[..i];
      if !Readable(rows[i]) {
        return false, cards;
      }
      var card := CardOfRow(rows[i]);
      if card.None? {
        continue;
      }
      cards := cards + [card.value];
    }
    assert rows[..|rows|] == rows;
  }

  // ---------------------------------------------------------------------------
  // Removing a card
  // ---------------------------------------------------------------------------

  /** A card of the binder as `GET /api/binder/{id}` lists it; a missing key is `None`. */
  datatype Entry = Entry(code: Option<string>, rarity: Option<string>, count: Option<int>, name: Option<string>,
                         otherKeys: bool)
  {
    /** A Python dict is truthy when it has a key. */
    predicate NonEmpty() {
      code.Some? || rarity.Some? || count.Some? || name.Some? || otherKeys
    }

    /** `card.get("code", "") == code and card.get("rarity", "") == rarity` */
    predicate Matches(cardCode: string, cardRarity: string) {
      (if code.Some? then code.value else "") == cardCode
      && (if rarity.Some? then rarity.value else "") == cardRarity
    }

    /** `card.get("count", 0)` */
    function Count(): int {
      if count.Some? then count.value else 0
    }
  }

  /** The index of the first matching card, if any. */
  function FirstMatch(cards: seq<Entry>, code: string, rarity: string): (r: Option<nat>)
    ensures r.Some? ==> r.value < |cards| && cards[r.value].Matches(code, rarity)
    ensures r.Some? ==> forall k :: 0 <= k < r.value ==> !cards[k].Matches(code, rarity)
    ensures r.None? <==> forall k :: 0 <= k < |cards| ==> !cards[k].Matches(code, rarity)
  {
    if cards == [] then None
    else if cards[0].Matches(code, rarity) then Some(0)
    else
      match FirstMatch(cards[1..], code, rarity)
      case None =>
        assert forall k :: 1 <= k < |cards| ==> cards[k] == cards[1..][k - 1];
        None
      case Some(i) =>
        assert forall k :: 1 <= k <= i + 1 ==> cards[k] == cards[1..][k - 1];
        Some(i + 1)
  }

  // ---------------------------------------------------------------------------
  // Export
  // ---------------------------------------------------------------------------

  /** What `GET /api/export/binder/csv/{id}` gives. */
  datatype ExportResponse =
    | Exported(text: string, disposition: string)      // status 200; `disposition` is "" without the header
    | Status(code: int)                                // 404, 403 or another status
    | RequestError                                     // `requests` raised

  const FilenameKey: string := "filename="

  /**
   * The filename `export_binder_to_csv` writes: the argument when given; else the text after
   * `filename=` in the Content-Disposition header, stripped of whitespace and then of quotes;
   * else `binder_` and the first eight characters of the id, with `.csv`.
   */
  function ExportFilename(filename: Option<string>, disposition: string, binderId: string): (r: string)
    ensures Given(filename) ==> r == filename.value
    ensures !Given(filename) && !Contains(disposition, FilenameKey) ==> StartsWith(r, "binder_") && EndsWith(r, ".csv")
  {
    if Given(filename) then filename.value
    else if Contains(disposition, FilenameKey) then StripChar(Trim(SecondField(disposition, FilenameKey)), '"')
    else "binder_" + Prefix(binderId, 8) + ".csv"
  }

  /** The stripped non-blank lines of a list of lines. */
  function NonBlank(lines: seq<string>): (r: seq<string>)
    ensures |r| <= |lines|
    ensures forall i :: 0 <= i < |r| ==> r[i] != "" && IsTrimmed(r[i])
  {
    if lines == [] then []
    else
      var last := Trim(lines[|lines| - 1]);
      TrimIsTrimmed(lines[|lines| - 1]);
      NonBlank(lines[..|lines| - 1]) + (if last != "" then [last] else [])
  }

  /** The number of cards an export reports: its non-blank lines, less the header. */
  function ExportCount(text: string): (n: nat)
    ensures n < |Split(Trim(text), '\n')|
  {
    var lines := NonBlank(Split(Trim(text), '\n'));
    if lines == [] then 0 else |lines| - 1
  }

  /** All lines are kept when none is blank. */
  lemma {:induction false} NonBlankKeepsAll(lines: seq<string>)
    requires forall k :: 0 <= k < |lines| ==> Trim(lines[k]) != ""
    ensures |NonBlank(lines)| == |lines|
    decreases |lines|
  {
    if lines != [] {
      NonBlankKeepsAll(lines[..|lines| - 1]);
    }
  }

  /** A line that starts with a character `strip()` keeps is not blank. */
  lemma NotBlank(s: string)
    requires |s| > 0 && !IsSpace(s[0])
    ensures Trim(s) != ""
  {
    assert DropLeft(s, IsSpace) == s;
  }

  /** The server's CSV, a header line and one line per card, reports exactly its cards. */
  lemma ExportCountOfLines(header: string, cards: seq<string>)
    requires forall k :: 0 <= k < |[header] + cards| ==>
      var line := ([header] + cards)[k]; '\n' !in line && |line| > 0 && !IsSpace(line[0])
    ensures ExportCount(Join([header] + cards, '\n')) == |cards|
  {
    var lines := [header] + cards;
    SplitTrimJoinTrims(lines);
    var read := Split(Trim(Join(lines, '\n')), '\n');
    forall k | 0 <= k < |read| ensures Trim(read[k]) != "" {
      NotBlank(lines[k]);
    }
    NonBlankKeepsAll(read);
  }

  /**
   * A Content-Disposition whose only `=` is the one of `filename=` names the file after it,
   * stripped of white space and then of double quotes at either end.
   */
  lemma DispositionFilenameStripped(head: string, rest: string)
    requires '=' !in head && '=' !in rest
    ensures ExportFilename(None, head + FilenameKey + rest, "") == StripChar(Trim(rest), '"')
  {
    var d := head + FilenameKey + rest;
    FindAfterKey(head, rest);
    assert d[|head| + |FilenameKey|..] == rest;
    FindNoKey(rest);
    assert rest[..|rest|] == rest;
  }

  /** The quoted form `filename="name"` gives the name without its quotes. */
  lemma QuotedDispositionFilename(head: string, name: string)
    requires '=' !in head && '=' !in name && '"' !in name
    ensures ExportFilename(None, head + FilenameKey + ("\"" + name + "\""), "") == name
  {
    var q := "\"" + name + "\"";
    assert '=' !in q by { assert forall i :: 0 < i < |q| - 1 ==> q[i] == name[i - 1]; }
    DispositionFilenameStripped(head, q);
    TrimOfTrimmed(q);
    StripQuotes(name);
  }

  /** `'"' + name + '"'`, stripped of `"`, is `name` when `name` holds no quote. */
  lemma StripQuotes(name: string)
    requires '"' !in name
    ensures StripChar("\"" + name + "\"", '"') == name
  {
    var q := "\"" + name + "\"";
    var p := (x: char) => x == '"';
    assert q[1..] == name + "\"";
    assert DropLeft(q, p) == DropLeft(name + "\"", p);
    if name == [] {
      assert DropLeft(name + "\"", p) == DropLeft([], p) == [];
    } else {
      assert DropLeft(name + "\"", p) == name + "\"";
      assert (name + "\"")[..|name|] == name;
      assert DropRight(name + "\"", p) == DropRight(name, p) == name;
    }
  }

  /** A Content-Disposition whose only `=` is the one of `filename=` names the file after it. */
  lemma DispositionFilename(head: string, name: string)
    requires '=' !in head && '=' !in name
    requires name == Trim(name) && (name == [] || (name[0] != '"' && name[|name| - 1] != '"'))
    ensures ExportFilename(None, head + FilenameKey + name, "") == name
  {
    var d := head + FilenameKey + name;
    FindAfterKey(head, name);
    assert d[|head| + |FilenameKey|..] == name;
    FindNoKey(name);
    assert name[..|name|] == name;
    StripCharKept(name, '"');
  }

  /** The first `filename=` of `head + "filename=" + rest` is the one after `head`, when `head` has no `=`. */
  lemma {:induction false} FindAfterKey(head: string, rest: string)
    requires '=' !in head
    ensures Find(head + FilenameKey + rest, FilenameKey) == |head|
    decreases |head|
  {
    var s := head + FilenameKey + rest;
    if head == [] {
      assert s[..|FilenameKey|] == FilenameKey;
    } else {
      assert s[|FilenameKey| - 1] != '=' by {
        if |FilenameKey| - 1 < |head| {
          assert s[|FilenameKey| - 1] == head[|FilenameKey| - 1];
        } else {
          assert s[|FilenameKey| - 1] == FilenameKey[|FilenameKey| - 1 - |head|];
        }
      }
      assert s[..|FilenameKey|] != FilenameKey;
      assert s[1..] == head[1..] + FilenameKey + rest;
      FindAfterKey(head[1..], rest);
    }
  }

  /** A string without `=` holds no `filename=`. */
  lemma {:induction false} FindNoKey(s: string)
    requires '=' !in s
    ensures Find(s, FilenameKey) == |s|
    decreases |s|
  {
    if |s| >= |FilenameKey| {
      assert s[..|FilenameKey|] != FilenameKey by {
        assert s[..|FilenameKey|][|FilenameKey| - 1] == s[|FilenameKey| - 1];
      }
      FindNoKey(s[1..]);
    }
  }

  /** `s.strip(c)` leaves alone a string that neither starts nor ends with `c`. */
  lemma StripCharKept(s: string, c: char)
    requires s == [] || (s[0] != c && s[|s| - 1] != c)
    ensures StripChar(s, c) == s
  {
  }

  // ---------------------------------------------------------------------------
  // The binder manager
  // ---------------------------------------------------------------------------

  /** `YGOProgBinderManager`: binder operations made with the token of `auth`. */
  class Manager {
    const auth: Auth

    constructor(auth: Auth)
      ensures this.auth == auth
    {
      this.auth := auth;
    }

    /**
     * `import_csv_to_binder`: collects the cards of the kept rows and uploads them; false without
     * a valid token, when the file cannot be read, when no row is kept, or when the upload fails.
     */
    method ImportCsvToBinder(now: real, file: Result<seq<CsvRow>, string>, uploadOk: bool)
      returns (ok: bool, cards: seq<Card>)
      ensures file.Ok? && auth.IsTokenValid(now) && AllReadable(file.value) ==> cards == CardsOfRows(file.value)
      ensures ok <==> auth.IsTokenValid(now) && file.Ok? && AllReadable(file.value) && CardsOfRows(file.value) != [] && uploadOk
    {
      cards := [];
      if !auth.IsTokenValid(now) || file.Err? {
        return false, cards;
      }
      var readable;
      readable, cards := CollectCards(file.value);
      if !readable || cards == [] {
        return false, cards;
      }
      // `add_cards_to_binder` checks the same token again before the upload.
      ok := uploadOk;
    }

    /**
     * `remove_card`: finds the first card matching code and rarity and removes all its copies,
     * returning the delta it sends. False without a valid token or a match; true with no update
     * when the count is already 0 or less; otherwise the result of the update.
     */
    method RemoveCard(now: real, cards: seq<Entry>, code: string, rarity: string, updateOk: bool)
      returns (ok: bool, delta: Option<int>)
      ensures var m := FirstMatch(cards, code, rarity);
        var found := auth.IsTokenValid(now) && m.Some? && cards[m.value].NonEmpty();
        && (delta.Some? <==> found && cards[m.value].Count() > 0)
        && (delta.Some? ==> delta.value == -cards[m.value].Count() && delta.value < 0)
        && (ok <==> found && (cards[m.value].Count() <= 0 || updateOk))
    {
      if !auth.IsTokenValid(now) {
        return false, None;
      }
      var target: Option<Entry> := None;
      var i := 0;
      while i < |cards|
        invariant 0 <= i <= |cards|
        invariant forall k :: 0 <= k < i ==> !cards[k].Matches(code, rarity)
        invariant target.None?
      {
        if cards[i].Matches(code, rarity) {
          target := Some(cards[i]);
          break;
        }
        i := i + 1;
      }
      assert target.Some? ==> FirstMatch(cards, code, rarity) == Some(i) && target.value == cards[i];
      assert target.None? ==> FirstMatch(cards, code, rarity).None?;
      if target.None? || !target.value.NonEmpty() {
        return false, None;
      }
      var current := target.value.Count();
      if current <= 0 {
        return true, None;
      }
      // `update_card_count` checks the same token again before the update.
      return updateOk, Some(-current);
    }

    /**
     * `export_binder_to_csv`: on a 200 response, the file name it writes and the card count it
     * reports; false without a valid token, on any other status, or when the request fails.
     */
    method ExportBinderToCsv(now: real, binderId: string, filename: Option<string>, response: ExportResponse)
      returns (ok: bool, written: Option<(string, nat)>)
      ensures ok <==> auth.IsTokenValid(now) && response.Exported?
      ensures written.Some? <==> ok
      ensures ok ==>
        written.value == (ExportFilename(filename, response.disposition, binderId), ExportCount(response.text))
    {
      if !auth.IsTokenValid(now) || !response.Exported? {
        return false, None;
      }
      var name: string;
      if Given(filename) {
        name := filename.value;
      } else if Contains(response.disposition, FilenameKey) {
        name := StripChar(Trim(SecondField(response.disposition, FilenameKey)), '"');
      } else {
        name := "binder_" + Prefix(binderId, 8) + ".csv";
      }
      var lines := NonBlank(Split(Trim(response.text), '\n'));
      var count: nat := if lines != [] then |lines| - 1 else 0;
      return true, Some((name, count));
    }
  }
}
