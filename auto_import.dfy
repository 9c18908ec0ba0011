/**
 * The start-up importer of `auto_import.py`: the header and condition normalisers, the
 * row filter, the filename parser, the expected filenames of the binders already stored,
 * the import of a file's rows and the statistics of a scan.
 *
 * The database and the file system are parameters: each found file carries what
 * `Binder.get_by_name`, the CSV reader and `binder.save()` return for it (or the error
 * they raise), and `accepts` says whether the database stores a given card row.
 */
module AutoImport {
  import opened Common
  import opened Text
  import FileExport

  // ---------------------------------------------------------------------------
  // Normalisers
  // ---------------------------------------------------------------------------

  /** The standard column names the header aliases map to. */
  datatype Column = CardId | CardName | Quantity | SetCode | Rarity | Condition | Edition | Notes {
    function Name(): string {
      match this
      case CardId => "card_id"
      case CardName => "card_name"
      case Quantity => "quantity"
      case SetCode => "set_code"
      case Rarity => "rarity"
      case Condition => "condition"
      case Edition => "edition"
      case Notes => "notes"
    }
  }

  /** The header mapping of `_normalize_header`: the column a lower-cased, stripped header stands for. */
  function HeaderAlias(key: string): Option<Column> {
    if key == "card_id" || key == "cardid" || key == "id" || key == "card id" then Some(CardId)
    else if key == "card_name" || key == "cardname" || key == "name" || key == "card name" then Some(CardName)
    else if key == "quantity" || key == "qty" || key == "count" then Some(Quantity)
    else if key == "set_code" || key == "setcode" || key == "set code" || key == "set" then Some(SetCode)
    else if key == "rarity" then Some(Rarity)
    else if key == "condition" then Some(Condition)
    else if key == "edition" then Some(Edition)
    else if key == "notes" || key == "note" then Some(Notes)
    else None
  }

  /** `_normalize_header`: lower-case, strip, then map a known alias to its standard name. */
  function NormalizeHeader(header: string): (r: string)
    ensures HeaderAlias(Trim(Lower(header))).Some? ==> r == HeaderAlias(Trim(Lower(header))).value.Name()
    ensures HeaderAlias(Trim(Lower(header))).Some? ==> HeaderAlias(r) == HeaderAlias(Trim(Lower(header)))
    ensures HeaderAlias(Trim(Lower(header))).None? ==> r == Trim(Lower(header))
  {
    var key := Trim(Lower(header));
    match HeaderAlias(key)
    case Some(c) => StandardName(c); c.Name()
    case None => key
  }

  /** Every standard name is lower-case and stripped. */
  lemma StandardNameShape(c: Column)
    ensures NoUpper(c.Name()) && IsTrimmed(c.Name())
  {
    match c
    case CardId =>
    case CardName =>
    case Quantity =>
    case SetCode =>
    case Rarity =>
    case Condition =>
    case Edition =>
    case Notes =>
  }

  /** Every standard name is an alias of its own column. */
  lemma StandardName(c: Column)
    ensures HeaderAlias(c.Name()) == Some(c)
  {
    match c
    case CardId =>
    case CardName =>
    case Quantity =>
    case SetCode =>
    case Rarity =>
    case Condition =>
    case Edition =>
    case Notes =>
  }

  /** A normalised header is lower-case and stripped. */
  lemma NormalizedHeaderShape(header: string)
    ensures NoUpper(NormalizeHeader(header)) && IsTrimmed(NormalizeHeader(header))
  {
    var key := Trim(Lower(header));
    match HeaderAlias(key)
    case Some(c) => StandardNameShape(c);
    case None =>
      TrimNoUpper(Lower(header));
      TrimIsTrimmed(Lower(header));
  }

  /** Normalising a normalised header changes nothing. */
  lemma NormalizeHeaderIdempotent(header: string)
    ensures NormalizeHeader(NormalizeHeader(header)) == NormalizeHeader(header)
  {
    var r := NormalizeHeader(header);
    NormalizedHeaderShape(header);
    LowerOfNoUpper(r);
    TrimOfTrimmed(r);
    match HeaderAlias(Trim(Lower(header)))
    case Some(c) => StandardName(c);
    case None =>
  }

  /** The condition mapping of `_normalize_condition`. */
  function ConditionAlias(key: string): Option<string> {
    if key == "mint" || key == "m" then Some("Mint")
    else if key == "near mint" || key == "nm" then Some("Near Mint")
    else if key == "lightly played" || key == "light play" || key == "lp" then Some("Lightly Played")
    else if key == "moderately played" || key == "mp" || key == "played" then Some("Moderately Played")
    else if key == "heavily played" || key == "hp" then Some("Heavily Played")
    else if key == "damaged" || key == "dmg" || key == "poor" then Some("Damaged")
    else None
  }

  /** The conditions the database accepts. */
  predicate IsCondition(s: string) {
    s == "Mint" || s == "Near Mint" || s == "Lightly Played" || s == "Moderately Played"
    || s == "Heavily Played" || s == "Damaged"
  }

  /** `_normalize_condition`: empty or unknown input is "Near Mint". */
  function NormalizeCondition(condition: string): (r: string)
    ensures IsCondition(r)
  {
    if condition == "" then "Near Mint"
    else
      match ConditionAlias(Trim(Lower(condition)))
      case Some(c) => c
      case None => "Near Mint"
  }

  /** The lookup ignores case. */
  lemma NormalizeConditionIgnoresCase(condition: string)
    ensures NormalizeCondition(Lower(condition)) == NormalizeCondition(condition)
  {
    LowerIdempotent(condition);
  }

  /** A condition whose lower-cased form is the alias `key` of itself normalises to itself. */
  lemma ConditionFixedBy(s: string, key: string)
    requires |s| == |key| && (forall i :: 0 <= i < |s| ==> ToLowerChar(s[i]) == key[i])
    requires s != "" && IsTrimmed(key) && ConditionAlias(key) == Some(s)
    ensures NormalizeCondition(s) == s
  {
    assert Lower(s) == key;
    TrimOfTrimmed(key);
  }

  lemma MintFixed()
    ensures NormalizeCondition("Mint") == "Mint"
  {
    ConditionFixedBy("Mint", "mint");
  }

  lemma NearMintFixed()
    ensures NormalizeCondition("Near Mint") == "Near Mint"
  {
    ConditionFixedBy("Near Mint", "near mint");
  }

  lemma LightlyPlayedFixed()
    ensures NormalizeCondition("Lightly Played") == "Lightly Played"
  {
    ConditionFixedBy("Lightly Played", "lightly played");
  }

  lemma ModeratelyPlayedFixed()
    ensures NormalizeCondition("Moderately Played") == "Moderately Played"
  {
    ConditionFixedBy("Moderately Played", "moderately played");
  }

  lemma HeavilyPlayedFixed()
    ensures NormalizeCondition("Heavily Played") == "Heavily Played"
  {
    ConditionFixedBy("Heavily Played", "heavily played");
  }

  lemma DamagedFixed()
    ensures NormalizeCondition("Damaged") == "Damaged"
  {
    ConditionFixedBy("Damaged", "damaged");
  }

  /** Each accepted condition is its own normal form. */
  lemma ConditionFixed(s: string)
    requires IsCondition(s)
    ensures NormalizeCondition(s) == s
  {
    if s == "Mint" {
      MintFixed();
    } else if s == "Near Mint" {
      NearMintFixed();
    } else if s == "Lightly Played" {
      LightlyPlayedFixed();
    } else if s == "Moderately Played" {
      ModeratelyPlayedFixed();
    } else if s == "Heavily Played" {
      HeavilyPlayedFixed();
    } else {
      DamagedFixed();
    }
  }

  /** Normalising a normalised condition changes nothing. */
  lemma NormalizeConditionIdempotent(condition: string)
    ensures NormalizeCondition(NormalizeCondition(condition)) == NormalizeCondition(condition)
  {
    ConditionFixed(NormalizeCondition(condition));
  }

  // ---------------------------------------------------------------------------
  // Rows
  // ---------------------------------------------------------------------------

  /**
   * A row of `csv.DictReader`, as the items of the dict it builds: one pair per distinct header,
   * at the position of that header's first column and with its last column's value (a repeated
   * header keeps only its last cell); a missing value is "".
   */
  type RawRow = seq<(string, string)>

  /** A row after key normalisation: standard column name to stripped value. */
  type Row = map<string, string>

  /** `row.get(key, "")` */
  function Field(row: Row, key: string): string {
    if key in row then row[key] else ""
  }

  /** The normalised row: later columns with the same normalised header overwrite earlier ones. */
  function NormalizedRow(pairs: RawRow): Row {
    if pairs == [] then map[]
    else
      var last := pairs[|pairs| - 1];
      NormalizedRow(pairs[..|pairs| - 1])[NormalizeHeader(last.0) := Trim(last.1)]
  }

  /** A normalised key holds the stripped value of the last column that normalises to it. */
  lemma {:induction false} NormalizedRowLastWins(pairs: RawRow, i: nat)
    requires i < |pairs|
    requires forall j :: i < j < |pairs| ==> NormalizeHeader(pairs[j].0) != NormalizeHeader(pairs[i].0)
    ensures NormalizeHeader(pairs[i].0) in NormalizedRow(pairs)
    ensures NormalizedRow(pairs)[NormalizeHeader(pairs[i].0)] == Trim(pairs[i].1)
    decreases |pairs|
  {
    if i < |pairs| - 1 {
      var init := pairs[..|pairs| - 1];
      NormalizedRowLastWins(init, i);
    }
  }

  /** The keys of a normalised row are exactly the normalised headers. */
  lemma {:induction false} NormalizedRowKeys(pairs: RawRow, key: string)
    ensures key in NormalizedRow(pairs) <==> exists j :: 0 <= j < |pairs| && NormalizeHeader(pairs[j].0) == key
    decreases |pairs|
  {
    if pairs != [] {
      var init := pairs[..|pairs| - 1];
      NormalizedRowKeys(init, key);
      if key in NormalizedRow(init) {
        var j :| 0 <= j < |init| && NormalizeHeader(init[j].0) == key;
        assert pairs[j] == init[j];
      }
      if exists j :: 0 <= j < |pairs| && NormalizeHeader(pairs[j].0) == key {
        var j :| 0 <= j < |pairs| && NormalizeHeader(pairs[j].0) == key;
        if j < |init| {
          assert init[j] == pairs[j];
        }
      }
    }
  }

  /** The inner loop of `_read_csv_file` over one row's items. */
  method NormalizeRow(pairs: RawRow) returns (row: Row)
    ensures row == NormalizedRow(pairs)
  {
    row := map[];
    for i := 0 to |pairs|
      invariant row == NormalizedRow(pairs[..i])
    {
      assert pairs[..i + 1][..i] == pairs[..i];
      row := row[NormalizeHeader(pairs[i].0) := Trim(pairs[i].1)];
    }
    assert pairs[..|pairs|] == pairs;
  }

  /**
   * `_is_valid_card_row`: a card id or a card name, and a quantity that is empty (taken as 1)
   * or a positive integer. A quantity `int()` rejects makes the row invalid.
   */
  predicate IsValidCardRow(row: Row) {
    var id := Trim(Field(row, "card_id"));
    var name := Trim(Field(row, "card_name"));
    var quantity := Trim(Field(row, "quantity"));
    && (id != "" || name != "")
    && (quantity == "" || (ParseInt(quantity).Some? && ParseInt(quantity).value > 0))
  }

  /** The rows `_read_csv_file` keeps, in file order. */
  function ValidRows(raw: seq<RawRow>): (r: seq<Row>)
    ensures |r| <= |raw|
    ensures forall k :: 0 <= k < |r| ==> IsValidCardRow(r[k])
  {
    if raw == [] then []
    else
      var rows := ValidRows(raw[..|raw| - 1]);
      var row := NormalizedRow(raw[|raw| - 1]);
      if IsValidCardRow(row) then rows + [row] else rows
  }

  /** Every kept row is the normalised form of one of the file's rows. */
  lemma {:induction false} ValidRowsSound(raw: seq<RawRow>)
    ensures forall r :: r in ValidRows(raw) ==> exists k :: 0 <= k < |raw| && NormalizedRow(raw[k]) == r
    decreases |raw|
  {
    if raw != [] {
      var init := raw[..|raw| - 1];
      ValidRowsSound(init);
      forall r | r in ValidRows(raw) ensures exists k :: 0 <= k < |raw| && NormalizedRow(raw[k]) == r {
        if r in ValidRows(init) {
          var k :| 0 <= k < |init| && NormalizedRow(init[k]) == r;
          assert raw[k] == init[k];
        } else {
          assert NormalizedRow(raw[|raw| - 1]) == r;
        }
      }
    }
  }

  /** Every row that is valid once normalised is kept. */
  lemma {:induction false} ValidRowsComplete(raw: seq<RawRow>, k: nat)
    requires k < |raw| && IsValidCardRow(NormalizedRow(raw[k]))
    ensures NormalizedRow(raw[k]) in ValidRows(raw)
    decreases |raw|
  {
    var init := raw[..|raw| - 1];
    if k < |raw| - 1 {
      assert init[k] == raw[k];
      ValidRowsComplete(init, k);
    }
  }

  /** The row loop of `_read_csv_file`. */
  method ReadRows(raw: seq<RawRow>) returns (rows: seq<Row>)
    ensures rows == ValidRows(raw)
  {
    rows := [];
    for i := 0 to |raw|
      invariant rows == ValidRows(raw[..i])
    {
      assert raw[..i + 1][..i] == raw[..i];
      var row := NormalizeRow(raw[i]);
      if IsValidCardRow(row) {
        rows := rows + [row];
      }
    }
    assert raw[..|raw|] == raw;
  }

  // ---------------------------------------------------------------------------
  // Importing a file's rows
  // ---------------------------------------------------------------------------

  /** The `BinderCard` the import builds from a row. */
  datatype NewCard = NewCard(
    binderId: int, cardId: int, cardName: Option<string>, quantity: int, setCode: Option<string>,
    rarity: Option<string>, condition: string, edition: Option<string>, notes: Option<string>)

  /** `value or None` */
  function OrNone(s: string): Option<string> {
    if s == "" then None else Some(s)
  }

  /**
   * The card a row becomes, or `None` when the row is skipped before the save: `int()` of the
   * quantity ("1" when the column is missing) fails, the card id is empty, or it is not an integer.
   */
  function CardOfRow(binderId: int, row: Row): (r: Option<NewCard>)
    ensures r.Some? ==> r.value.binderId == binderId && IsCondition(r.value.condition)
  {
    var quantity := ParseInt(if "quantity" in row then row["quantity"] else "1");
    var id := Trim(Field(row, "card_id"));
    if quantity.None? || id == "" then None
    else
      match ParseInt(id)
      case None => None
      case Some(cardId) =>
        Some(NewCard(binderId, cardId, OrNone(Trim(Field(row, "card_name"))), quantity.value,
                     OrNone(Field(row, "set_code")), OrNone(Field(row, "rarity")),
                     NormalizeCondition(Field(row, "condition")),
                     OrNone(Field(row, "edition")), OrNone(Field(row, "notes"))))
  }

  /**
   * A row becomes a card exactly when `int()` accepts its quantity ("1" when the column is
   * missing) and its stripped card id is a non-empty integer, which becomes the card's id.
   */
  lemma CardOfRowCases(binderId: int, row: Row)
    ensures var quantity := ParseInt(if "quantity" in row then row["quantity"] else "1");
      var id := Trim(Field(row, "card_id"));
      && (CardOfRow(binderId, row).Some? <==> quantity.Some? && id != "" && ParseInt(id).Some?)
      && (CardOfRow(binderId, row).Some? ==>
            CardOfRow(binderId, row).value.cardId == ParseInt(id).value
            && CardOfRow(binderId, row).value.quantity == quantity.value)
  {
  }

  /** A row without a quantity column is imported with quantity 1. */
  lemma MissingQuantityIsOne(binderId: int, row: Row)
    requires "quantity" !in row && CardOfRow(binderId, row).Some?
    ensures CardOfRow(binderId, row).value.quantity == 1
  {
    ParseIntOfIntToString(1);
    assert IntToString(1) == "1";
  }

  /** What each row becomes, position by position. */
  function Candidates(binderId: int, rows: seq<Row>): (r: seq<Option<NewCard>>)
    ensures |r| == |rows| && forall k :: 0 <= k < |rows| ==> r[k] == CardOfRow(binderId, rows[k])
  {
    seq(|rows|, k requires 0 <= k < |rows| => CardOfRow(binderId, rows[k]))
  }

  /** The candidate cards the database accepts, in order. */
  function Accepted(cs: seq<Option<NewCard>>, accepts: NewCard -> bool): (r: seq<NewCard>)
    ensures |r| <= |cs|
  {
    if cs == [] then []
    else
      var last := cs[|cs| - 1];
      Accepted(cs[..|cs| - 1], accepts) + (if last.Some? && accepts(last.value) then [last.value] else [])
  }

  /** Every accepted card is one of the candidates, and the database accepted it. */
  lemma {:induction false} AcceptedFromCandidates(cs: seq<Option<NewCard>>, accepts: NewCard -> bool)
    ensures forall c :: c in Accepted(cs, accepts) ==> accepts(c) && Some(c) in cs
    decreases |cs|
  {
    if cs != [] {
      var init := cs[..|cs| - 1];
      AcceptedFromCandidates(init, accepts);
      forall c | c in Accepted(cs, accepts) ensures accepts(c) && Some(c) in cs {
        if c in Accepted(init, accepts) {
          assert Some(c) in init;
        }
      }
    }
  }

  /** Every candidate card the database accepts is saved. */
  lemma {:induction false} AcceptedComplete(cs: seq<Option<NewCard>>, accepts: NewCard -> bool, k: nat)
    requires k < |cs| && cs[k].Some? && accepts(cs[k].value)
    ensures cs[k].value in Accepted(cs, accepts)
    decreases |cs|
  {
    if k < |cs| - 1 {
      AcceptedComplete(cs[..|cs| - 1], accepts, k);
    }
  }

  /** The cards that end up saved: rows that become a card the database accepts, in order. */
  function ImportedCards(binderId: int, rows: seq<Row>, accepts: NewCard -> bool): seq<NewCard> {
    Accepted(Candidates(binderId, rows), accepts)
  }

  /** A card is saved exactly when some row becomes it and the database accepts it. */
  lemma ImportedCardsFromRows(binderId: int, rows: seq<Row>, accepts: NewCard -> bool, c: NewCard)
    ensures c in ImportedCards(binderId, rows, accepts) <==>
      accepts(c) && exists k :: 0 <= k < |rows| && CardOfRow(binderId, rows[k]) == Some(c)
  {
    var cs := Candidates(binderId, rows);
    AcceptedFromCandidates(cs, accepts);
    if c in ImportedCards(binderId, rows, accepts) {
      var k :| 0 <= k < |cs| && cs[k] == Some(c);
    }
    if accepts(c) && exists k :: 0 <= k < |rows| && CardOfRow(binderId, rows[k]) == Some(c) {
      var k :| 0 <= k < |rows| && CardOfRow(binderId, rows[k]) == Some(c);
      AcceptedComplete(cs, accepts, k);
    }
  }

  /**
   * A row with an empty quantity passes `_is_valid_card_row` (empty means 1) and is still
   * skipped by the import, since `int("")` raises.
   */
  lemma EmptyQuantityValidButSkipped(binderId: int)
    ensures var row := map["card_id" := "42", "quantity" := ""];
      IsValidCardRow(row) && CardOfRow(binderId, row).None?
  {
    var row := map["card_id" := "42", "quantity" := ""];
    assert Field(row, "card_id") == "42";
    assert Field(row, "quantity") == "";
    assert Trim("42") == "42" by { TrimOfTrimmed("42"); }
    assert Trim("") == "";
    assert Field(row, "card_name") == "";
  }

  /** `_import_cards_to_binder`: saves the cards of the rows and returns how many were saved. */
  method ImportCardsToBinder(binderId: int, rows: seq<Row>, accepts: NewCard -> bool)
    returns (imported: nat, saved: seq<NewCard>)
    ensures saved == ImportedCards(binderId, rows, accepts)
    ensures imported == |saved| <= |rows|
  {
    imported, saved := 0, [];
    ghost var cs := Candidates(binderId, rows);
    for i := 0 to |rows|
      invariant saved == Accepted(cs[..i], accepts)
      invariant imported == |saved|
    {
      assert cs[..i + 1][..i] == cs[..i];
      var card := CardOfRow(binderId, rows[i]);
      if card.None? {
        continue;
      }
      if !accepts(card.value) {
        // `binder_card.save()` raised.
        continue;
      }
      saved := saved + [card.value];
      imported := imported + 1;
    }
    assert cs[..|rows|] == cs;
  }

  // ---------------------------------------------------------------------------
  // Filenames
  // ---------------------------------------------------------------------------

  /** The end of `^(.+)_([a-f0-9]{8})$` under `re.IGNORECASE`: `$` also matches before a final newline. */
  function MatchTarget(s: string): string {
    if |s| > 0 && s[|s| - 1] == '\n' then s[..|s| - 1] else s
  }

  /** `t` (without the final newline `$` may skip) is a name of at least one character, `_` and 8 hex digits. */
  predicate HasUuidSuffix(t: string) {
    && |t| >= 10
    && t[|t| - 9] == '_'
    && (forall i :: |t| - 8 <= i < |t| ==> IsHexDigit(t[i]))
    && (forall i :: 0 <= i < |t| - 9 ==> t[i] != '\n')
  }

  /** The name part of a file name and its uuid hint, before underscores become spaces. */
  function SplitUuid(namePart: string): (r: (string, Option<string>))
    ensures r.1.Some? ==> |r.1.value| == 8 && forall i :: 0 <= i < 8 ==> IsHexDigit(r.1.value[i])
  {
    var t := MatchTarget(namePart);
    if HasUuidSuffix(t) then (t[..|t| - 9], Some(t[|t| - 8..])) else (namePart, None)
  }

  /**
   * `_parse_filename`: drop `.csv`, split off an 8-hex-digit uuid hint, turn underscores into
   * spaces and strip; an empty name becomes "Imported Binder " and the clock's
   * `%Y%m%d_%H%M%S` stamp.
   */
  function ParseFilename(filename: string, stamp: string): (r: (string, Option<string>))
    ensures r.0 != ""
    ensures r.1 == SplitUuid(if EndsWith(filename, ".csv") then filename[..|filename| - 4] else filename).1
  {
    var namePart := if EndsWith(filename, ".csv") then filename[..|filename| - 4] else filename;
    var (part, hint) := SplitUuid(namePart);
    var name := Trim(Replace(part, "_", " "));
    (if name == "" then "Imported Binder " + stamp else name, hint)
  }

  /** A parsed name holds no underscore, unless it is the generated fallback. */
  lemma ParsedNameHasNoUnderscore(filename: string, stamp: string)
    ensures var name := ParseFilename(filename, stamp).0;
      '_' !in name || name == "Imported Binder " + stamp
  {
    var namePart := if EndsWith(filename, ".csv") then filename[..|filename| - 4] else filename;
    var part := SplitUuid(namePart).0;
    var replaced := Replace(part, "_", " ");
    ReplaceChar(part, '_', ' ');
    var lo, hi := TrimIsSlice(replaced);
    forall i | 0 <= i < |Trim(replaced)| ensures Trim(replaced)[i] != '_' {
      assert Trim(replaced)[i] == replaced[lo + i];
    }
  }

  /** The filename `_get_existing_binder_filenames` expects for a binder: `sanitize(name)_<uuid[:8]>.csv`. */
  function ExpectedFilename(name: string, uuid: string): (r: string)
    ensures StartsWith(r, FileExport.Sanitized(Some(name)) + "_") && EndsWith(r, ".csv")
  {
    FileExport.Sanitized(Some(name)) + "_" + Prefix(uuid, 8) + ".csv"
  }

  /**
   * Parsing the filename expected for a binder gives back its uuid prefix and its sanitised
   * name with underscores turned into spaces, whenever that name is not empty.
   */
  lemma ParseExpectedFilename(name: string, uuid: string, stamp: string)
    requires |uuid| >= 8 && forall i :: 0 <= i < 8 ==> IsHexDigit(uuid[i])
    requires FileExport.Sanitized(Some(name)) != ""
    ensures ParseFilename(ExpectedFilename(name, uuid), stamp) ==
      (Replace(FileExport.Sanitized(Some(name)), "_", " "), Some(uuid[..8]))
  {
    var s := FileExport.Sanitized(Some(name));
    FileExport.SanitizedClean(Some(name));
    var hex := uuid[..8];
    var f := ExpectedFilename(name, uuid);
    assert f == s + "_" + hex + ".csv";
    assert EndsWith(f, ".csv");
    var namePart := f[..|f| - 4];
    assert namePart == s + "_" + hex;
    assert MatchTarget(namePart) == namePart by {
      assert namePart[|namePart| - 1] == hex[7];
    }
    assert HasUuidSuffix(namePart) by {
      assert namePart[|namePart| - 9] == '_';
      forall i | |namePart| - 8 <= i < |namePart| ensures IsHexDigit(namePart[i]) {
        assert namePart[i] == hex[i - |s| - 1];
      }
      forall i | 0 <= i < |namePart| - 9 ensures namePart[i] != '\n' {
        assert namePart[i] == s[i];
      }
    }
    assert namePart[..|namePart| - 9] == s;
    assert namePart[|namePart| - 8..] == hex;
    var replaced := Replace(s, "_", " ");
    ReplaceChar(s, '_', ' ');
    assert IsTrimmed(replaced) by {
      assert replaced[0] == s[0] && replaced[|s| - 1] == s[|s| - 1];
    }
    TrimOfTrimmed(replaced);
  }

  /** A binder as `Binder.get_all()` returns it. */
  datatype StoredBinder = StoredBinder(name: string, uuid: string)

  /** The filenames expected for the stored binders; a failing `Binder.get_all()` gives none. */
  function ExpectedFilenames(binders: Result<seq<StoredBinder>, string>): set<string> {
    if binders.Err? then {} else set b | b in binders.value :: ExpectedFilename(b.name, b.uuid)
  }

  /** `_get_existing_binder_filenames`, with its loop over the stored binders. */
  method GetExistingBinderFilenames(binders: Result<seq<StoredBinder>, string>) returns (names: set<string>)
    ensures names == ExpectedFilenames(binders)
  {
    names := {};
    if binders.Err? {
      return;
    }
    var all := binders.value;
    for i := 0 to |all|
      invariant names == set b | b in all[..i] :: ExpectedFilename(b.name, b.uuid)
    {
      assert forall b :: b in all[..i + 1] <==> b in all[..i] || b == all[i];
      var safe := FileExport.SanitizeFilename(Some(all[i].name));
      names := names + {safe + "_" + Prefix(all[i].uuid, 8) + ".csv"};
    }
    assert all[..|all|] == all;
  }

  // ---------------------------------------------------------------------------
  // Processing files
  // ---------------------------------------------------------------------------

  /** What the database and the file system answer for one found CSV file. */
  datatype CsvFile = CsvFile(
    filename: string,
    byName: Result<bool, string>,           // `Binder.get_by_name(name)`: found or not, or the error it raises
    contents: Result<seq<RawRow>, string>,  // the rows the CSV reader yields, or the error reading raises
    created: Result<int, string>)           // `binder.save()`: the new binder's id, or the error it raises

  /** How `_process_csv_file` ends for a file. */
  datatype Outcome = Skipped | Created(name: string, cards: nat) | Raised(message: string)

  /** The outcome of `_process_csv_file` for `file`. */
  function ProcessOutcome(file: CsvFile, existing: set<string>, stamp: string, accepts: NewCard -> bool): (r: Outcome)
    ensures !r.Skipped? ==> file.filename !in existing && file.byName != Ok(true)
    ensures r.Created? ==> file.byName == Ok(false) && file.contents.Ok? && file.created.Ok?
    ensures r.Created? ==> r.name == ParseFilename(file.filename, stamp).0 && r.name != ""
    ensures r.Created? ==> r.cards <= |file.contents.value|
  {
    if file.filename in existing then Skipped
    else
      var name := ParseFilename(file.filename, stamp).0;
      match file.byName
      case Err(e) => Raised(e)
      case Ok(found) =>
        if found then Skipped
        else
          match file.contents
          case Err(e) => Raised("Error reading CSV file: " + e)
          case Ok(raw) =>
            var rows := ValidRows(raw);
            if rows == [] then Skipped
            else
              match file.created
              case Err(e) => Raised(e)
              case Ok(id) => Created(name, |ImportedCards(id, rows, accepts)|)
  }

  /** A file is skipped when its name is already expected, when a binder has its name, or when it has no valid row. */
  lemma SkippedCases(file: CsvFile, existing: set<string>, stamp: string, accepts: NewCard -> bool)
    ensures ProcessOutcome(file, existing, stamp, accepts) == Skipped <==>
      || file.filename in existing
      || file.byName == Ok(true)
      || (file.byName == Ok(false) && file.contents.Ok? && ValidRows(file.contents.value) == [])
  {
  }

  function CountSkipped(os: seq<Outcome>): nat {
    if os == [] then 0 else CountSkipped(os[..|os| - 1]) + (if os[|os| - 1].Skipped? then 1 else 0)
  }

  function CountCreated(os: seq<Outcome>): nat {
    if os == [] then 0 else CountCreated(os[..|os| - 1]) + (if os[|os| - 1].Created? then 1 else 0)
  }

  function CountRaised(os: seq<Outcome>): nat {
    if os == [] then 0 else CountRaised(os[..|os| - 1]) + (if os[|os| - 1].Raised? then 1 else 0)
  }

  function CardsImported(os: seq<Outcome>): nat {
    if os == [] then 0
    else CardsImported(os[..|os| - 1]) + (if os[|os| - 1].Created? then os[|os| - 1].cards else 0)
  }

  /** The messages recorded for the files that raised, in order. */
  function Errors(files: seq<CsvFile>, os: seq<Outcome>): seq<string>
    requires |files| == |os|
  {
    if os == [] then []
    else
      var n := |os| - 1;
      Errors(files[..n], os[..n])
      + (if os[n].Raised? then ["Failed to process " + files[n].filename + ": " + os[n].message] else [])
  }

  /** The outcomes of the files, processed in order against the same expected filenames. */
  function Outcomes(files: seq<CsvFile>, existing: set<string>, stamp: string, accepts: NewCard -> bool): (os: seq<Outcome>)
    ensures |os| == |files|
    ensures forall k :: 0 <= k < |files| ==> os[k] == ProcessOutcome(files[k], existing, stamp, accepts)
  {
    seq(|files|, k requires 0 <= k < |files| => ProcessOutcome(files[k], existing, stamp, accepts))
  }

  /** The `import_stats` dictionary. */
  datatype Stats = Stats(
    filesFound: nat, filesProcessed: nat, filesSkipped: nat, filesFailed: nat,
    bindersCreated: nat, cardsImported: nat, errors: seq<string>)
  {
    /** What `_process_csv_file` itself counts for an outcome. */
    function Counted(o: Outcome): Stats {
      match o
      case Skipped => this.(filesSkipped := filesSkipped + 1)
      case Created(_, cards) => this.(bindersCreated := bindersCreated + 1, cardsImported := cardsImported + cards)
      case Raised(_) => this
    }

    /** What the loop of `auto_import_binders` counts for a file, including the processed/failed split. */
    function AfterFile(file: CsvFile, o: Outcome): Stats {
      var st := Counted(o);
      if o.Raised? then st.(filesFailed := filesFailed + 1,
                             errors := errors + ["Failed to process " + file.filename + ": " + o.message])
      else st.(filesProcessed := filesProcessed + 1)
    }
  }

  /** The statistics as reset at the start of a scan that found `found` files. */
  function Initial(found: nat): Stats {
    Stats(found, 0, 0, 0, 0, 0, [])
  }

  /** The statistics after the files, in order, with their outcomes. */
  function Scan(st: Stats, files: seq<CsvFile>, os: seq<Outcome>): Stats
    requires |files| == |os|
  {
    if os == [] then st
    else Scan(st, files[..|os| - 1], os[..|os| - 1]).AfterFile(files[|os| - 1], os[|os| - 1])
  }

  /** One more file extends the scan by that file's count. */
  lemma ScanStep(st: Stats, files: seq<CsvFile>, os: seq<Outcome>, i: nat)
    requires |files| == |os| && i < |os|
    ensures Scan(st, files[..i + 1], os[..i + 1]) == Scan(st, files[..i], os[..i]).AfterFile(files[i], os[i])
  {
    assert os[..i + 1][..i] == os[..i] && files[..i + 1][..i] == files[..i];
  }

  /** A scan's statistics count the outcomes: processed files are the skipped and created ones, failed files raised. */
  lemma {:induction false} ScanCounts(found: nat, files: seq<CsvFile>, os: seq<Outcome>)
    requires |files| == |os|
    ensures var st := Scan(Initial(found), files, os);
      && st.filesFound == found
      && st.filesProcessed == CountSkipped(os) + CountCreated(os)
      && st.filesFailed == CountRaised(os)
      && st.filesSkipped == CountSkipped(os)
      && st.bindersCreated == CountCreated(os)
      && st.cardsImported == CardsImported(os)
      && st.errors == Errors(files, os)
    decreases |os|
  {
    if os != [] {
      ScanCounts(found, files[..|os| - 1], os[..|os| - 1]);
    }
  }

  /** Every found file is either processed (which includes skipped ones) or failed. */
  lemma {:induction false} EveryFileCounted(os: seq<Outcome>)
    ensures CountSkipped(os) + CountCreated(os) + CountRaised(os) == |os|
    decreases |os|
  {
    if os != [] {
      EveryFileCounted(os[..|os| - 1]);
    }
  }

  /** After a scan, processed and failed files add up to the files found. */
  lemma ProcessedPlusFailed(files: seq<CsvFile>, existing: set<string>, stamp: string, accepts: NewCard -> bool)
    ensures var st := Scan(Initial(|files|), files, Outcomes(files, existing, stamp, accepts));
      st.filesProcessed + st.filesFailed == st.filesFound
  {
    var os := Outcomes(files, existing, stamp, accepts);
    ScanCounts(|files|, files, os);
    EveryFileCounted(os);
  }

  /** The auto-import service and its statistics. */
  class AutoImportService {
    var stats: Stats

    constructor()
      ensures stats == Initial(0)
    {
      stats := Initial(0);
    }

    /**
     * `_process_csv_file`: counts a skipped file, or a created binder and its cards, or
     * counts nothing and returns the message of the error it raises.
     */
    method ProcessCsvFile(file: CsvFile, existing: set<string>, stamp: string, accepts: NewCard -> bool)
      returns (raised: Option<string>)
      modifies this
      ensures var o := ProcessOutcome(file, existing, stamp, accepts);
        && raised == (if o.Raised? then Some(o.message) else None)
        && stats == old(stats).Counted(o)
    {
      if file.filename in existing {
        stats := stats.(filesSkipped := stats.filesSkipped + 1);
        return None;
      }
      if file.byName.Err? {
        return Some(file.byName.error);
      }
      if file.byName.value {
        stats := stats.(filesSkipped := stats.filesSkipped + 1);
        return None;
      }
      if file.contents.Err? {
        return Some("Error reading CSV file: " + file.contents.error);
      }
      var rows := ReadRows(file.contents.value);
      if rows == [] {
        stats := stats.(filesSkipped := stats.filesSkipped + 1);
        return None;
      }
      if file.created.Err? {
        return Some(file.created.error);
      }
      var imported, saved := ImportCardsToBinder(file.created.value, rows, accepts);
      stats := stats.(bindersCreated := stats.bindersCreated + 1, cardsImported := stats.cardsImported + imported);
      return None;
    }

    /**
     * `auto_import_binders`: resets the statistics, then processes every found file, counting it
     * as processed or, when processing raises, as failed with its message recorded.
     */
    method AutoImportBinders(dirExists: bool, files: seq<CsvFile>, binders: Result<seq<StoredBinder>, string>,
                             stamp: string, accepts: NewCard -> bool)
      modifies this
      ensures !dirExists ==> stats == Initial(0)
      ensures dirExists ==> stats == Scan(Initial(|files|), files, Outcomes(files, ExpectedFilenames(binders), stamp, accepts))
    {
      stats := Initial(0);
      if !dirExists {
        return;
      }
      stats := stats.(filesFound := |files|);
      if files == [] {
        return;
      }
      var existing := GetExistingBinderFilenames(binders);
      ghost var os := Outcomes(files, existing, stamp, accepts);
      for i := 0 to |files|
        invariant stats == Scan(Initial(|files|), files[..i], os[..i])
      {
        ScanStep(Initial(|files|), files, os, i);
        var raised := ProcessCsvFile(files[i], existing, stamp, accepts);
        if raised.None? {
          stats := stats.(filesProcessed := stats.filesProcessed + 1);
        } else {
          stats := stats.(filesFailed := stats.filesFailed + 1,
                          errors := stats.errors + ["Failed to process " + files[i].filename + ": " + raised.value]);
        }
      }
      assert os[..|files|] == os && files[..|files|] == files;
    }
  }
}
