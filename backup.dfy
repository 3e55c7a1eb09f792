/**
 * Export and backup: CSV field quoting and rows, the status and day cells of
 * the CSV and HTML exports, and the shape check applied to a restored backup.
 * File writes, sharing and the document picker are outside the model; what
 * they return is passed in.
 */
module Backup {
  import opened Wrappers
  import opened Calendar
  import opened Text
  import opened Types
  import opened Warranty

  const AppVersion: string := "1.0.0"

  // ---------------------------------------------------------------- CSV quoting

  /** The number of double quotes in `s`. */
  function CountQuotes(s: string): nat
  {
    if s == [] then 0 else (if s[0] == '"' then 1 else 0) + CountQuotes(s[1..])
  }

  /** `s.replace(/"/g, '""')`: every double quote doubled. */
  function EscapeQuotes(s: string): (r: string)
    ensures |r| == |s| + CountQuotes(s)
  {
    if s == [] then ""
    else (if s[0] == '"' then "\"\"" else [s[0]]) + EscapeQuotes(s[1..])
  }

  /** A text cell of the CSV export: the escaped text between double quotes. */
  function QuoteField(s: string): (r: string)
    ensures |r| == |s| + CountQuotes(s) + 2
    ensures r[0] == '"' && r[|r| - 1] == '"'
    ensures r[1..|r| - 1] == EscapeQuotes(s)
  {
    "\"" + EscapeQuotes(s) + "\""
  }

  /** Reads the inside of a quoted field back: a doubled quote is one quote, a lone quote is malformed. */
  function Unescape(s: string): (r: Option<string>)
  {
    if s == [] then Some("")
    else if s[0] != '"' then
      match Unescape(s[1..])
      case None => None
      case Some(rest) => Some([s[0]] + rest)
    else if |s| >= 2 && s[1] == '"' then
      match Unescape(s[2..])
      case None => None
      case Some(rest) => Some("\"" + rest)
    else None
  }

  /** Reads a quoted CSV field back to its text. */
  function Unquote(f: string): Option<string>
  {
    if |f| >= 2 && f[0] == '"' && f[|f| - 1] == '"' then Unescape(f[1..|f| - 1]) else None
  }

  /** Un-doubling undoes the doubling. */
  lemma {:induction false} UnescapeEscape(s: string)
    ensures Unescape(EscapeQuotes(s)) == Some(s)
    decreases |s|
  {
    if s != [] {
      var e := EscapeQuotes(s);
      UnescapeEscape(s[1..]);
      if s[0] == '"' {
        assert e[2..] == EscapeQuotes(s[1..]);
        assert "\"" + s[1..] == s;
      } else {
        assert e[1..] == EscapeQuotes(s[1..]);
        assert [s[0]] + s[1..] == s;
      }
    }
  }

  /** Quoting round-trips: reading a quoted field gives back the original text. */
  lemma QuoteRoundTrip(s: string)
    ensures Unquote(QuoteField(s)) == Some(s)
  {
    UnescapeEscape(s);
  }

  /** Quoting loses nothing: different texts give different cells. */
  lemma QuoteFieldInjective(s: string, t: string)
    requires QuoteField(s) == QuoteField(t)
    ensures s == t
  {
    QuoteRoundTrip(s);
    QuoteRoundTrip(t);
  }

  // ------------------------------------------------------------ status and days

  /** The day count of an export row: from the expiration timestamp, rounded up. */
  function RowDays(purchaseDate: Date, warrantyLength: int, now: int): (days: int)
    ensures (days - 1) * MsPerDay < AddMonthsTime(purchaseDate, warrantyLength) - now <= days * MsPerDay
  {
    CeilDays(AddMonthsTime(purchaseDate, warrantyLength) - now)
  }

  /** The status cell of a CSV row: 'Active', overridden by 'Expired' or 'Expiring'. */
  function ExportStatus(days: int): (name: string)
    ensures name == StatusLabel(Classify(days))
  {
    if days <= 0 then "Expired"
    else if days <= 30 then "Expiring"
    else "Active"
  }

  /** The name a status is exported under. */
  function StatusLabel(s: Status): (name: string)
    ensures |name| >= 6
  {
    match s
    case Active => "Active"
    case Expiring => "Expiring"
    case Expired => "Expired"
  }

  /**
   * An export row and the status calculator agree: same day count and same
   * status for an item with the same purchase date and warranty length.
   */
  lemma ExportAgreesWithCalculator(item: Item, w: WarrantyItem, now: int)
    requires w.purchaseDate == item.purchaseDate && w.warrantyDuration == item.warrantyLength
    ensures RowDays(item.purchaseDate, item.warrantyLength, now) == CalculateWarrantyStatus(w, now).daysRemaining
    ensures ExportStatus(RowDays(item.purchaseDate, item.warrantyLength, now))
         == StatusLabel(CalculateWarrantyStatus(w, now).status)
  {
  }

  /** The status cell and its colour in the HTML export. */
  datatype PdfStatus = PdfStatus(text: string, color: string)

  function PdfStatusOf(days: int): (p: PdfStatus)
    ensures p.text == ExportStatus(days)
    ensures p.color == "#EF4444" <==> days <= 0
    ensures p.color == "#F59E0B" <==> 0 < days <= 30
    ensures p.color == "#10B981" <==> days > 30
  {
    if days <= 0 then PdfStatus("Expired", "#EF4444")
    else if days <= 30 then PdfStatus("Expiring", "#F59E0B")
    else PdfStatus("Active", "#10B981")
  }

  const DaysSuffix: string := " days"
  const DaysAgoSuffix: string := " days ago"

  /** The days cell of the HTML export: "N days" ahead, "|N| days ago" otherwise. */
  function PdfDaysCell(days: int): (cell: string)
    ensures |cell| > 0 && cell[|cell| - 1] == if days > 0 then 's' else 'o'
  {
    if days > 0 then IntToString(days) + DaysSuffix
    else IntToString(-days) + DaysAgoSuffix
  }

  /** The days cell says which side of expiration the item is on, and by how much. */
  lemma PdfDaysCellShape(days: int)
    ensures days > 0 ==> PdfDaysCell(days) == NatToDecimal(days) + " days"
    ensures days <= 0 ==> PdfDaysCell(days) == NatToDecimal(-days) + " days ago"
  {
  }

  /** Different day counts give different days cells. */
  lemma PdfDaysCellInjective(a: int, b: int)
    requires PdfDaysCell(a) == PdfDaysCell(b)
    ensures a == b
  {
    if a > 0 {
      AheadCellsInjective(a, b);
    } else {
      AgoCellsInjective(a, b);
    }
  }

  lemma AheadCellsInjective(a: int, b: int)
    requires a > 0 && b > 0
    requires IntToString(a) + DaysSuffix == IntToString(b) + DaysSuffix
    ensures a == b
  {
    assert "" + IntToString(a) == IntToString(a) && "" + IntToString(b) == IntToString(b);
    StripAffixes("", IntToString(a), IntToString(b), DaysSuffix);
    IntToStringInjective(a, b);
  }

  lemma AgoCellsInjective(a: int, b: int)
    requires a <= 0 && b <= 0
    requires IntToString(-a) + DaysAgoSuffix == IntToString(-b) + DaysAgoSuffix
    ensures a == b
  {
    assert "" + IntToString(-a) == IntToString(-a) && "" + IntToString(-b) == IntToString(-b);
    StripAffixes("", IntToString(-a), IntToString(-b), DaysAgoSuffix);
    IntToStringInjective(-a, -b);
  }

  // ------------------------------------------------------------------- CSV rows

  /** The column headers, in order. */
  const Headers: seq<string> := [
    "Product Name", "Purchase Date", "Warranty Length (months)", "Store Name",
    "Status", "Days Remaining", "Price", "Created At"]

  /**
   * The 8 cells of an item's CSV row, in header order. Date and price
   * formatting are not modelled: `dateCell` and `priceCell` give those cells.
   */
  function CsvCells(item: Item, now: int, dateCell: Date -> string, priceCell: string): (cells: seq<string>)
    ensures |cells| == |Headers|
  {
    var days := RowDays(item.purchaseDate, item.warrantyLength, now);
    [QuoteField(item.productName), dateCell(item.purchaseDate), IntToString(item.warrantyLength),
     QuoteField(item.storeName), ExportStatus(days), IntToString(days), priceCell, dateCell(item.createdAt)]
  }

  /** Reads an exported status cell back. */
  function ParseStatus(cell: string): Option<Status>
  {
    if cell == "Active" then Some(Active)
    else if cell == "Expiring" then Some(Expiring)
    else if cell == "Expired" then Some(Expired)
    else None
  }

  /**
   * Each cell holds the value its header names: the texts come back from
   * their quoted cells, the numbers from their decimal cells, and the status
   * cell is the calculator's classification of the day count beside it.
   */
  lemma CsvCellsReadBack(item: Item, now: int, dateCell: Date -> string, priceCell: string)
    ensures var cells := CsvCells(item, now, dateCell, priceCell);
            var days := RowDays(item.purchaseDate, item.warrantyLength, now);
            && Headers[0] == "Product Name" && Unquote(cells[0]) == Some(item.productName)
            && Headers[1] == "Purchase Date" && cells[1] == dateCell(item.purchaseDate)
            && Headers[2] == "Warranty Length (months)" && cells[2] == IntToString(item.warrantyLength)
            && Headers[3] == "Store Name" && Unquote(cells[3]) == Some(item.storeName)
            && Headers[4] == "Status" && ParseStatus(cells[4]) == Some(Classify(days))
            && Headers[5] == "Days Remaining" && cells[5] == IntToString(days)
            && Headers[6] == "Price" && cells[6] == priceCell
            && Headers[7] == "Created At" && cells[7] == dateCell(item.createdAt)
  {
    QuoteRoundTrip(item.productName);
    QuoteRoundTrip(item.storeName);
  }

  /** One line of the CSV text: the cells joined by commas. */
  function CsvLine(cells: seq<string>): string
  {
    Join(cells, ",")
  }

  /** The cells of every item's row, in item order. */
  function CsvRows(items: seq<Item>, now: int, dateCell: Date -> string, priceCell: Item -> string): (rows: seq<seq<string>>)
    ensures |rows| == |items|
    ensures forall i :: 0 <= i < |items| ==> rows[i] == CsvCells(items[i], now, dateCell, priceCell(items[i]))
  {
    seq(|items|, i requires 0 <= i < |items| => CsvCells(items[i], now, dateCell, priceCell(items[i])))
  }

  /** The lines of the CSV text: the header line, then one line per row, in order. */
  function CsvLines(header: seq<string>, rows: seq<seq<string>>): (lines: seq<string>)
    ensures |lines| == |rows| + 1
    ensures lines[0] == CsvLine(header)
    ensures forall i :: 0 <= i < |rows| ==> lines[i + 1] == CsvLine(rows[i])
  {
    [CsvLine(header)] + seq(|rows|, i requires 0 <= i < |rows| => CsvLine(rows[i]))
  }

  /** The line of each item, in item order. */
  function CsvItemLines(items: seq<Item>, now: int, dateCell: Date -> string, priceCell: Item -> string): (lines: seq<string>)
    ensures |lines| == |items|
    ensures forall i :: 0 <= i < |items| ==> lines[i] == CsvLine(CsvCells(items[i], now, dateCell, priceCell(items[i])))
  {
    seq(|items|, i requires 0 <= i < |items| => CsvLine(CsvCells(items[i], now, dateCell, priceCell(items[i]))))
  }

  /** The text `exportToCSV` writes: the lines joined by newlines. */
  function CsvContent(items: seq<Item>, now: int, dateCell: Date -> string, priceCell: Item -> string): (content: string)
    ensures |CsvLine(Headers)| <= |content| && content[..|CsvLine(Headers)|] == CsvLine(Headers)
    ensures items == [] ==> content == CsvLine(Headers)
    ensures items != [] ==> content == CsvLine(Headers) + "\n" + Join(CsvItemLines(items, now, dateCell, priceCell), "\n")
  {
    var lines := CsvLines(Headers, CsvRows(items, now, dateCell, priceCell));
    assert items != [] ==> lines[1..] == CsvItemLines(items, now, dateCell, priceCell);
    Join(lines, "\n")
  }

  /** Exporting one more item appends a newline and that item's line, so rows follow item order. */
  lemma CsvContentAppend(items: seq<Item>, item: Item, now: int, dateCell: Date -> string, priceCell: Item -> string)
    ensures CsvContent(items + [item], now, dateCell, priceCell)
         == CsvContent(items, now, dateCell, priceCell) + "\n" + CsvLine(CsvCells(item, now, dateCell, priceCell(item)))
  {
    var row := CsvCells(item, now, dateCell, priceCell(item));
    var rows := CsvRows(items, now, dateCell, priceCell);
    CsvRowsAppend(items, item, now, dateCell, priceCell);
    CsvLinesAppend(Headers, rows, row);
    JoinAppend(CsvLines(Headers, rows), CsvLine(row), "\n");
  }

  /** One more item gives one more row at the end. */
  lemma CsvRowsAppend(items: seq<Item>, item: Item, now: int, dateCell: Date -> string, priceCell: Item -> string)
    ensures CsvRows(items + [item], now, dateCell, priceCell)
         == CsvRows(items, now, dateCell, priceCell) + [CsvCells(item, now, dateCell, priceCell(item))]
  {
    var rs := CsvRows(items + [item], now, dateCell, priceCell);
    forall i | 0 <= i < |items| ensures rs[i] == CsvRows(items, now, dateCell, priceCell)[i] {
      assert (items + [item])[i] == items[i];
    }
    assert (items + [item])[|items|] == item;
  }

  /** One more row gives one more line at the end. */
  lemma CsvLinesAppend(header: seq<string>, rows: seq<seq<string>>, row: seq<string>)
    ensures CsvLines(header, rows + [row]) == CsvLines(header, rows) + [CsvLine(row)]
  {
    var ls := CsvLines(header, rows + [row]);
    forall j | 1 <= j <= |rows| ensures ls[j] == CsvLines(header, rows)[j] {
      assert (rows + [row])[j - 1] == rows[j - 1];
    }
    assert (rows + [row])[|rows|] == row;
  }

  // --------------------------------------------------------- backup and restore

  /** A parsed JSON value. */
  datatype Json =
    | JNull
    | JBool(b: bool)
    | JNumber(n: int)
    | JString(s: string)
    | JArray(elems: seq<Json>)
    | JObject(fields: map<string, Json>)

  /** The `BackupData` record that `createBackup` writes out. */
  datatype BackupData = BackupData(items: seq<Item>, exportDate: Date, version: string)

  /** `JSON.stringify` of a backup, field by field; how an item or a date is written is a parameter. */
  function BackupJson(b: BackupData, itemJson: Item -> Json, dateJson: Date -> Json): (j: Json)
    ensures j.JObject? && j.fields.Keys == {"items", "exportDate", "version"}
    ensures j.fields["items"].JArray? && |j.fields["items"].elems| == |b.items|
    ensures forall i :: 0 <= i < |b.items| ==> j.fields["items"].elems[i] == itemJson(b.items[i])
    ensures j.fields["exportDate"] == dateJson(b.exportDate)
    ensures j.fields["version"] == JString(b.version)
  {
    JObject(map[
      "items" := JArray(seq(|b.items|, i requires 0 <= i < |b.items| => itemJson(b.items[i]))),
      "exportDate" := dateJson(b.exportDate),
      "version" := JString(b.version)])
  }

  /** Reads the items back out of a JSON array, one element at a time; how an item is read is a parameter. */
  function ReadItems(elems: seq<Json>, itemOf: Json -> Item): (r: seq<Item>)
    ensures |r| == |elems|
    ensures forall i :: 0 <= i < |elems| ==> r[i] == itemOf(elems[i])
  {
    seq(|elems|, i requires 0 <= i < |elems| => itemOf(elems[i]))
  }

  /** When items are read back the way they were written, a backup's `items` array reads back as its items. */
  lemma BackupItemsReadBack(b: BackupData, itemJson: Item -> Json, dateJson: Date -> Json, itemOf: Json -> Item)
    requires forall x :: itemOf(itemJson(x)) == x
    ensures ReadItems(BackupJson(b, itemJson, dateJson).fields["items"].elems, itemOf) == b.items
  {
    var elems := BackupJson(b, itemJson, dateJson).fields["items"].elems;
    var r := ReadItems(elems, itemOf);
    assert |r| == |b.items|;
    forall i | 0 <= i < |b.items| ensures r[i] == b.items[i] {
      assert elems[i] == itemJson(b.items[i]);
    }
  }

  /** `createBackup`: the backup record, once the file is written; a failed write throws. */
  function CreateBackup(items: seq<Item>, now: Date, writeOk: bool): (r: Option<BackupData>)
    ensures r.Some? <==> writeOk
    ensures r.Some? ==> r.value.items == items && r.value.exportDate == now && r.value.version == AppVersion
  {
    if writeOk then Some(BackupData(items, now, AppVersion)) else None
  }

  /** What the document picker and the file read produced. */
  datatype Picked = Canceled | ReadFailed | Unparsable | Parsed(content: Json)

  /** What `restoreFromBackup` ends with: null, the backup, or a thrown error. */
  datatype Restore = NoBackup | Restored(data: Json) | Rejected

  /** `!backupData.items || !Array.isArray(backupData.items)` fails: `items` is present and an array. */
  predicate HasItemsArray(j: Json)
  {
    j.JObject? && "items" in j.fields && j.fields["items"].JArray?
  }

  /** `restoreFromBackup`: cancel gives null, a file without an `items` array is rejected. */
  function RestoreFromBackup(picked: Picked): (r: Restore)
    ensures r.NoBackup? <==> picked.Canceled?
    ensures r.Restored? <==> picked.Parsed? && HasItemsArray(picked.content)
    ensures r.Restored? ==> r.data == picked.content
  {
    match picked
    case Canceled => NoBackup
    case Parsed(j) => if HasItemsArray(j) then Restored(j) else Rejected
    case _ => Rejected
  }

  /** A backup this app wrote passes the restore check unchanged. */
  lemma CreatedBackupRestores(items: seq<Item>, now: Date, itemJson: Item -> Json, dateJson: Date -> Json)
    ensures var j := BackupJson(CreateBackup(items, now, true).value, itemJson, dateJson);
            RestoreFromBackup(Parsed(j)) == Restored(j)
  {
  }
}
