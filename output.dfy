/** The output file: the header written at main.py:92-93 and one row per finding appended
    at main.py:169-170. */
module Output {
  import opened Wrappers
  import opened Text

  /** One accepted product finding, in the column order of the file. */
  datatype Finding = Finding(companyName: string, ticker: string, filingDate: string,
                             productName: string, productDescription: string)

  /** The field separator of the file. */
  const Separator: string := " | "

  /** The header line the script writes when it opens the file for writing: the column
      names `company_name`, `stock_name`, `filing_time`, `new_product` and
      `product_description`, separated by " | " and ended by a newline. */
  const Header: string :=
    "company_name" + " | " + "stock_name" + " | " + "filing_time" + " | " + "new_product" + " | " +
    "product_description" + "\n"

  /** The line main.py:170 appends for a finding; no field is quoted or escaped. */
  function Row(f: Finding): string
  {
    f.companyName + " | " + f.ticker + " | " + f.filingDate + " | " + f.productName + " | " + f.productDescription + "\n"
  }

  /** The fields of a finding, in column order. */
  function Fields(f: Finding): seq<string>
  {
    [f.companyName, f.ticker, f.filingDate, f.productName, f.productDescription]
  }

  /** The fields joined by the separator. */
  function Join(fields: seq<string>): string
  {
    if |fields| == 0 then ""
    else if |fields| == 1 then fields[0]
    else fields[0] + Separator + Join(fields[1..])
  }

  /** Splitting a line at every separator, left to right: how a reader of the file would
      recover the fields of a row. */
  function SplitFields(s: string): (fields: seq<string>)
    ensures |fields| > 0
    decreases |s|
  {
    match Find(s, Separator, 0)
    case None => [s]
    case Some(i) => [s[..i]] + SplitFields(s[i + |Separator|..])
  }

  /** The strings of a list, one after the other. */
  function Concat(parts: seq<string>): string
  {
    if parts == [] then "" else Concat(parts[..|parts| - 1]) + parts[|parts| - 1]
  }

  /** The text of a list of rows, in order. */
  function Rows(fs: seq<Finding>): string
  {
    Concat(seq(|fs|, k requires 0 <= k < |fs| => Row(fs[k])))
  }

  /** Concatenating two lists of strings concatenates their texts. */
  lemma {:induction false} ConcatAppend(a: seq<string>, b: seq<string>)
    ensures Concat(a + b) == Concat(a) + Concat(b)
    decreases |b|
  {
    if b == [] {
      assert a + b == a;
    } else {
      var init := b[..|b| - 1];
      assert (a + b)[..|a + b| - 1] == a + init;
      ConcatAppend(a, init);
    }
  }

  /** The text of a single row. */
  lemma RowsOne(f: Finding)
    ensures Rows([f]) == Row(f)
  {
    assert seq(1, k requires 0 <= k < 1 => Row([f][k])) == [Row(f)];
    assert Concat([Row(f)]) == Concat([]) + Row(f);
  }

  /** The text of two lists of rows is the text of the first followed by the second. */
  lemma RowsAppend(a: seq<Finding>, b: seq<Finding>)
    ensures Rows(a + b) == Rows(a) + Rows(b)
  {
    var la := seq(|a|, k requires 0 <= k < |a| => Row(a[k]));
    var lb := seq(|b|, k requires 0 <= k < |b| => Row(b[k]));
    assert seq(|a + b|, k requires 0 <= k < |a + b| => Row((a + b)[k])) == la + lb;
    ConcatAppend(la, lb);
  }

  /** Writing one more row after some rows gives the text of the longer list. */
  lemma AppendRow(prefix: string, written: seq<Finding>, f: Finding)
    ensures prefix + Rows(written + [f]) == prefix + Rows(written) + Row(f)
  {
    RowsAppend(written, [f]);
    RowsOne(f);
  }

  /** Writing a further list of rows after some rows gives the text of the joined list. */
  lemma AppendRows(prefix: string, written: seq<Finding>, more: seq<Finding>)
    ensures prefix + Rows(written + more) == prefix + Rows(written) + Rows(more)
  {
    RowsAppend(written, more);
  }

  /** The names of the columns, as a finding. */
  const ColumnNames: Finding := Finding("company_name", "stock_name", "filing_time", "new_product", "product_description")

  /** The header has the shape of a row: the column names joined by the separator. */
  lemma HeaderIsRowOfColumnNames()
    ensures Header == Row(ColumnNames)
  {
  }

  /** A row is its five fields joined by the separator, ended by a newline. */
  lemma RowIsJoin(f: Finding)
    ensures Row(f) == Join(Fields(f)) + "\n"
  {
    var fs := Fields(f);
    var j4 := Join([f.productDescription]);
    var j3 := Join([f.productName, f.productDescription]);
    var j2 := Join([f.filingDate, f.productName, f.productDescription]);
    var j1 := Join([f.ticker, f.filingDate, f.productName, f.productDescription]);
    assert j4 == f.productDescription;
    assert [f.productName, f.productDescription][1..] == [f.productDescription];
    assert j3 == f.productName + Separator + j4;
    assert [f.filingDate, f.productName, f.productDescription][1..] == [f.productName, f.productDescription];
    assert j2 == f.filingDate + Separator + j3;
    assert [f.ticker, f.filingDate, f.productName, f.productDescription][1..] == [f.filingDate, f.productName, f.productDescription];
    assert j1 == f.ticker + Separator + j2;
    assert fs[1..] == [f.ticker, f.filingDate, f.productName, f.productDescription];
    assert Join(fs) == f.companyName + Separator + j1;
  }

  /** A text without `|` holds no separator. */
  lemma NoBarNoSeparator(s: string)
    requires '|' !in s
    ensures Find(s, Separator, 0).None?
  {
    forall k: nat | k + 3 <= |s| ensures !StartsAt(s, k, Separator) {
      assert s[k + 1] != '|';
      assert s[k..k + 3][1] == s[k + 1];
    }
  }

  /** Joining fields that hold no `|` and splitting the result gives the fields back. */
  lemma {:induction false} SplitJoin(fields: seq<string>)
    requires |fields| > 0
    requires forall i :: 0 <= i < |fields| ==> '|' !in fields[i]
    ensures SplitFields(Join(fields)) == fields
  {
    var f0 := fields[0];
    if |fields| == 1 {
      NoBarNoSeparator(f0);
    } else {
      var rest := Join(fields[1..]);
      var s := f0 + Separator + rest;
      assert StartsAt(s, |f0|, Separator) by { assert s[|f0|..|f0| + 3] == Separator; }
      forall k | 0 <= k < |f0| ensures !StartsAt(s, k, Separator) {
        if k + 1 < |f0| {
          assert s[k + 1] == f0[k + 1];
        } else {
          assert s[k + 1] == ' ';
        }
        assert s[k..k + 3][1] == s[k + 1];
      }
      FindFirst(s, Separator, 0, |f0|);
      assert s[..|f0|] == f0;
      assert s[|f0| + 3..] == rest;
      SplitJoin(fields[1..]);
      assert fields == [f0] + fields[1..];
    }
  }

  /** A row whose fields hold no `|` can be read back: its line, split at the separator,
      gives the finding's fields. */
  lemma RowReadsBack(f: Finding)
    requires forall i :: 0 <= i < 5 ==> '|' !in Fields(f)[i]
    ensures var r := Row(f); SplitFields(r[..|r| - 1]) == Fields(f)
  {
    RowIsJoin(f);
    var r := Row(f);
    assert r[..|r| - 1] == Join(Fields(f));
    SplitJoin(Fields(f));
  }

  /** So distinct findings whose fields hold no `|` give distinct rows. */
  lemma RowInjective(f: Finding, g: Finding)
    requires forall i :: 0 <= i < 5 ==> '|' !in Fields(f)[i] && '|' !in Fields(g)[i]
    requires Row(f) == Row(g)
    ensures f == g
  {
    RowReadsBack(f);
    RowReadsBack(g);
    assert Fields(f) == Fields(g);
  }

  /** Without escaping, a separator inside a field makes two different findings write the
      same row. */
  lemma RowAmbiguousWithSeparatorInField()
    ensures Finding("A | B", "C", "D", "E", "F") != Finding("A", "B | C", "D", "E", "F")
    ensures Row(Finding("A | B", "C", "D", "E", "F")) == Row(Finding("A", "B | C", "D", "E", "F"))
  {
  }

  /** Number of newline characters in a text. */
  function Newlines(s: string): nat
  {
    if s == [] then 0 else Newlines(s[..|s| - 1]) + (if s[|s| - 1] == '\n' then 1 else 0)
  }

  lemma {:induction false} NewlinesAppend(a: string, b: string)
    ensures Newlines(a + b) == Newlines(a) + Newlines(b)
    decreases |b|
  {
    if b == [] {
      assert a + b == a;
    } else {
      assert (a + b)[..|a + b| - 1] == a + b[..|b| - 1];
      NewlinesAppend(a, b[..|b| - 1]);
    }
  }

  lemma {:induction false} NoNewlines(s: string)
    requires '\n' !in s
    ensures Newlines(s) == 0
    decreases |s|
  {
    if s != [] {
      NoNewlines(s[..|s| - 1]);
    }
  }

  /** No field of the finding holds a newline. */
  predicate SingleLine(f: Finding)
  {
    forall i :: 0 <= i < 5 ==> '\n' !in Fields(f)[i]
  }

  /** A row whose fields hold no newline is one line. */
  lemma RowIsOneLine(f: Finding)
    requires SingleLine(f)
    ensures Newlines(Row(f)) == 1
  {
    var line := f.companyName + " | " + f.ticker + " | " + f.filingDate + " | " + f.productName + " | " + f.productDescription;
    assert Row(f) == line + "\n";
    assert Fields(f)[0] == f.companyName && Fields(f)[1] == f.ticker && Fields(f)[2] == f.filingDate;
    assert Fields(f)[3] == f.productName && Fields(f)[4] == f.productDescription;
    assert '\n' !in line;
    NoNewlines(line);
    NewlinesAppend(line, "\n");
  }

  /** No column name holds a newline. */
  lemma ColumnNamesSingleLine()
    ensures SingleLine(ColumnNames)
  {
    var fs := Fields(ColumnNames);
    assert fs == ["company_name", "stock_name", "filing_time", "new_product", "product_description"];
    forall i | 0 <= i < 5 ensures '\n' !in fs[i] {
      assert forall c :: c in fs[i] ==> 'a' <= c <= 'z' || c == '_';
    }
  }

  /** The header is one line. */
  lemma HeaderIsOneLine()
    ensures Newlines(Header) == 1
  {
    HeaderIsRowOfColumnNames();
    ColumnNamesSingleLine();
    RowIsOneLine(ColumnNames);
  }

  /** A row whose fields hold no newline adds one line. */
  lemma OneMoreRow(init: seq<Finding>, f: Finding)
    requires SingleLine(f)
    ensures Newlines(Rows(init + [f])) == Newlines(Rows(init)) + 1
  {
    RowsAppend(init, [f]);
    RowsOne(f);
    NewlinesAppend(Rows(init), Row(f));
    RowIsOneLine(f);
  }

  /** Rows whose fields hold no newline are one line each. */
  lemma {:induction false} OneLinePerRow(fs: seq<Finding>)
    requires forall k :: 0 <= k < |fs| ==> SingleLine(fs[k])
    ensures Newlines(Rows(fs)) == |fs|
    decreases |fs|
  {
    if fs == [] {
      assert Rows(fs) == [];
    } else {
      var init, f := fs[..|fs| - 1], fs[|fs| - 1];
      assert init + [f] == fs;
      assert forall k :: 0 <= k < |init| ==> init[k] == fs[k];
      OneLinePerRow(init);
      OneMoreRow(init, f);
    }
  }

  /** When no field holds a newline, the file holds exactly one line per finding after the
      header. */
  lemma OneLinePerFinding(fs: seq<Finding>)
    requires forall k :: 0 <= k < |fs| ==> SingleLine(fs[k])
    ensures Newlines(Header + Rows(fs)) == 1 + |fs|
  {
    HeaderIsOneLine();
    OneLinePerRow(fs);
    NewlinesAppend(Header, Rows(fs));
  }

  /** The file the script writes: truncated and given the header when opened for
      writing, then extended one row at a time. */
  class OutputFile {
    var contents: string

    /** `open('output.csv', 'w')` and the header write. */
    constructor Create()
      ensures contents == Header
    {
      contents := Header;
    }

    /** `open('output.csv', 'a')` and the write of one row. */
    method Append(f: Finding)
      modifies this
      ensures contents == old(contents) + Row(f)
    {
      contents := contents + Row(f);
    }
  }
}
