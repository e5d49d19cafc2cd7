// The spreadsheet export (lib/export.ts): the item list as comma-separated
// text with some fields in double quotes, and as tab-separated text with no
// quoting, each a header line followed by one line per item. The date
// shown for `lastUpdated` is the locale's rendering, taken as a parameter.
module Export {
  import opened Types
  import opened Text

  const Headers: seq<string> := ["ID", "Name", "SKU", "Quantity", "Location", "Category", "Last Updated"]

  /** `` `"${s}"` ``: the text between double quotes, with any quote inside left as it is. */
  function Quoted(s: string): (r: string)
    ensures |r| == |s| + 2 && r[0] == '"' && r[|r| - 1] == '"' && r[1..|r| - 1] == s
  {
    "\"" + s + "\""
  }

  /** `item.category || ""`. */
  function CategoryText(item: Item): (r: string)
    ensures item.category.None? ==> r == ""
    ensures item.category.Some? ==> r == item.category.value
  {
    if item.category.Some? then item.category.value else ""
  }

  /** The seven CSV fields of an item, in header order. */
  function CsvFields(item: Item, date: string -> string): (r: seq<string>)
    ensures |r| == |Headers|
  {
    [item.id, Quoted(item.name), item.sku, NatToString(item.quantity),
     Quoted(item.location), Quoted(CategoryText(item)), Quoted(date(item.lastUpdated))]
  }

  /** The seven TSV fields of an item, in header order. */
  function TsvFields(item: Item, date: string -> string): (r: seq<string>)
    ensures |r| == |Headers|
  {
    [item.id, item.name, item.sku, NatToString(item.quantity),
     item.location, CategoryText(item), date(item.lastUpdated)]
  }

  function CsvRows(items: seq<Item>, date: string -> string): (r: seq<string>)
    ensures |r| == |items| && forall i :: 0 <= i < |items| ==> r[i] == Join(CsvFields(items[i], date), ',')
  {
    seq(|items|, i requires 0 <= i < |items| => Join(CsvFields(items[i], date), ','))
  }

  function TsvRows(items: seq<Item>, date: string -> string): (r: seq<string>)
    ensures |r| == |items| && forall i :: 0 <= i < |items| ==> r[i] == Join(TsvFields(items[i], date), '\t')
  {
    seq(|items|, i requires 0 <= i < |items| => Join(TsvFields(items[i], date), '\t'))
  }

  /** `csvContent` of `exportToCSV`: the header line and one line per item, joined by newlines. */
  function Csv(items: seq<Item>, date: string -> string): string
  {
    Join([Join(Headers, ',')] + CsvRows(items, date), '\n')
  }

  /** `csvContent` of `exportToExcel`. */
  function Tsv(items: seq<Item>, date: string -> string): string
  {
    Join([Join(Headers, '\t')] + TsvRows(items, date), '\n')
  }

  /** None of the fields holds `c`. */
  predicate FieldsFree(fields: seq<string>, c: char)
  {
    forall i :: 0 <= i < |fields| ==> Free(fields[i], c)
  }

  predicate Letter(c: char) { 'A' <= c <= 'Z' || 'a' <= c <= 'z' || c == ' ' }

  /** The header names hold none of the separators. */
  lemma HeadersFree(c: char)
    requires c == ',' || c == '\t' || c == '\n'
    ensures FieldsFree(Headers, c)
  {
    forall i | 0 <= i < |Headers| ensures Free(Headers[i], c) {
      var h := Headers[i];
      forall k | 0 <= k < |h| ensures h[k] != c {
        assert Letter(h[k]);
      }
    }
  }

  /** Nor does the header line. */
  lemma HeaderLineFree(sep: char)
    requires sep == ',' || sep == '\t'
    ensures Free(Join(Headers, sep), '\n')
  {
    HeadersFree('\n');
    JoinFree(Headers, sep, '\n');
  }

  lemma QuotedFree(s: string, c: char)
    requires c != '"'
    ensures Free(Quoted(s), c) <==> Free(s, c)
  {
    var q := Quoted(s);
    if Free(s, c) {
      forall k | 0 <= k < |q| ensures q[k] != c {
        if 0 < k < |q| - 1 {
          assert q[k] == s[k - 1];
        }
      }
    }
    if Free(q, c) {
      forall k | 0 <= k < |s| ensures s[k] != c {
        assert s[k] == q[k + 1];
      }
    }
  }

  /** An item's CSV fields are free of `c` exactly when its TSV fields are. */
  lemma CsvFieldsFree(item: Item, date: string -> string, c: char)
    requires c == ',' || c == '\n' || c == '\t'
    ensures FieldsFree(CsvFields(item, date), c) <==> FieldsFree(TsvFields(item, date), c)
  {
    var cf, tf := CsvFields(item, date), TsvFields(item, date);
    forall i | 0 <= i < |cf| ensures Free(cf[i], c) <==> Free(tf[i], c) {
      if i == 1 {
        QuotedFree(item.name, c);
      } else if i == 4 {
        QuotedFree(item.location, c);
      } else if i == 5 {
        QuotedFree(CategoryText(item), c);
      } else if i == 6 {
        QuotedFree(date(item.lastUpdated), c);
      }
    }
  }

  /** A header line and row lines, none holding a newline, come back from splitting their join on newlines. */
  lemma DocumentLines(header: string, rows: seq<string>)
    requires Free(header, '\n') && forall i :: 0 <= i < |rows| ==> Free(rows[i], '\n')
    ensures Split(Join([header] + rows, '\n'), '\n') == [header] + rows
  {
    var lines := [header] + rows;
    forall i | 0 <= i < |lines| ensures Free(lines[i], '\n') {
      if i > 0 {
        assert lines[i] == rows[i - 1];
      }
    }
    SplitJoin(lines, '\n');
  }

  /**
   * When no field holds a newline, the CSV text has one line for the header
   * and then one per item, in order, with no line after the last.
   */
  lemma CsvLines(items: seq<Item>, date: string -> string)
    requires forall i :: 0 <= i < |items| ==> FieldsFree(TsvFields(items[i], date), '\n')
    ensures Split(Csv(items, date), '\n') == [Join(Headers, ',')] + CsvRows(items, date)
    ensures |Split(Csv(items, date), '\n')| == 1 + |items|
  {
    var rows := CsvRows(items, date);
    HeaderLineFree(',');
    forall i | 0 <= i < |rows| ensures Free(rows[i], '\n') {
      CsvFieldsFree(items[i], date, '\n');
      JoinFree(CsvFields(items[i], date), ',', '\n');
    }
    DocumentLines(Join(Headers, ','), rows);
  }

  /**
   * When no field holds a comma, each CSV line after the header splits on
   * commas into the item's seven fields, four of them in quotes.
   */
  lemma CsvRowFields(items: seq<Item>, date: string -> string, i: int)
    requires 0 <= i < |items|
    requires FieldsFree(TsvFields(items[i], date), ',')
    ensures Split(CsvRows(items, date)[i], ',') == CsvFields(items[i], date)
  {
    CsvFieldsFree(items[i], date, ',');
    SplitJoin(CsvFields(items[i], date), ',');
  }

  /** When no field holds a newline, the TSV text is the header line and then one line per item. */
  lemma TsvLines(items: seq<Item>, date: string -> string)
    requires forall i :: 0 <= i < |items| ==> FieldsFree(TsvFields(items[i], date), '\n')
    ensures Split(Tsv(items, date), '\n') == [Join(Headers, '\t')] + TsvRows(items, date)
  {
    var rows := TsvRows(items, date);
    HeaderLineFree('\t');
    forall i | 0 <= i < |rows| ensures Free(rows[i], '\n') {
      JoinFree(TsvFields(items[i], date), '\t', '\n');
    }
    DocumentLines(Join(Headers, '\t'), rows);
  }

  /** Splitting the header line on its separator gives back the header names. */
  lemma HeaderLineSplit(sep: char)
    requires sep == ',' || sep == '\t'
    ensures Split(Join(Headers, sep), sep) == Headers
  {
    HeadersFree(sep);
    SplitJoin(Headers, sep);
  }

  /** An item's TSV line splits on tabs into its seven fields when none holds a tab. */
  lemma TsvRowFields(items: seq<Item>, date: string -> string, i: int)
    requires 0 <= i < |items|
    requires FieldsFree(TsvFields(items[i], date), '\t')
    ensures Split(TsvRows(items, date)[i], '\t') == TsvFields(items[i], date)
  {
    SplitJoin(TsvFields(items[i], date), '\t');
  }

  /**
   * When no field holds a tab or newline, splitting the TSV text on newlines
   * and then on tabs gives back the header and each item's seven fields.
   */
  lemma TsvRoundTrip(items: seq<Item>, date: string -> string)
    requires forall i :: 0 <= i < |items| ==> FieldsFree(TsvFields(items[i], date), '\n')
    requires forall i :: 0 <= i < |items| ==> FieldsFree(TsvFields(items[i], date), '\t')
    ensures |Split(Tsv(items, date), '\n')| == 1 + |items|
    ensures Split(Split(Tsv(items, date), '\n')[0], '\t') == Headers
    ensures forall i :: 0 <= i < |items| ==> Split(Split(Tsv(items, date), '\n')[i + 1], '\t') == TsvFields(items[i], date)
  {
    TsvLines(items, date);
    HeaderLineSplit('\t');
    forall i | 0 <= i < |items|
      ensures Split(TsvRows(items, date)[i], '\t') == TsvFields(items[i], date)
    {
      TsvRowFields(items, date, i);
    }
  }
}
