/** The CSV export of an invitation's RSVPs: a fixed header line, then one row
    per RSVP with every field in double quotes. Only the message has its quotes
    doubled; the other fields are written as they are stored. */
module RsvpExport {
  import opened Common
  import opened Text
  import opened RsvpModel

  /** The column names, "Name,Email,Phone,Response,Guests,Message,Date", in
      three pieces so that `HeaderLineBreaks` can check each piece on its own. */
  const HeaderLine: string := "Name,Email,Phone" + ",Response,Guests" + ",Message,Date"
  const Header: string := HeaderLine + "\n"

  /** The header is exactly one line. */
  lemma HeaderLineBreaks()
    ensures CountChar(Header, '\n') == 1
  {
    assert '\n' !in "Name,Email,Phone";
    assert '\n' !in ",Response,Guests";
    assert '\n' !in ",Message,Date";
    CountCharAbsent(HeaderLine, '\n');
    CountCharAppend(HeaderLine, "\n", '\n');
  }

  /** `s.replace(/"/g, '""')`. */
  function EscapeQuotes(s: string): (r: string)
    ensures |r| == |s| + CountChar(s, '"')
  {
    if s == [] then []
    else (if s[0] == '"' then "\"\"" else [s[0]]) + EscapeQuotes(s[1..])
  }

  /** The reading a CSV parser applies inside a quoted field: `""` stands for `"`. */
  function UnescapeQuotes(s: string): string {
    if s == [] then []
    else if |s| >= 2 && s[0] == '"' && s[1] == '"' then "\"" + UnescapeQuotes(s[2..])
    else [s[0]] + UnescapeQuotes(s[1..])
  }

  /** A message survives the export: reading the doubled quotes back gives the
      message itself. */
  lemma {:induction false} EscapeRoundTrip(s: string)
    ensures UnescapeQuotes(EscapeQuotes(s)) == s
  {
    if s != [] {
      var e := EscapeQuotes(s);
      EscapeRoundTrip(s[1..]);
      if s[0] == '"' {
        assert e == "\"\"" + EscapeQuotes(s[1..]);
        assert e[2..] == EscapeQuotes(s[1..]);
      } else {
        assert e == [s[0]] + EscapeQuotes(s[1..]);
        assert e[1..] == EscapeQuotes(s[1..]);
      }
    }
  }

  /** Escaping doubles the number of quotes in the message. */
  lemma {:induction false} EscapedQuotesDoubled(s: string)
    ensures CountChar(EscapeQuotes(s), '"') == 2 * CountChar(s, '"')
  {
    if s != [] {
      EscapedQuotesDoubled(s[1..]);
      CountCharAppend(if s[0] == '"' then "\"\"" else [s[0]], EscapeQuotes(s[1..]), '"');
    }
  }

  /** `"${v}"`. */
  function Quoted(v: string): string {
    "\"" + v + "\""
  }

  /** One row: name, email, phone (or empty), response, guests, the escaped
      message (or empty) and the creation time. */
  function Row(r: Rsvp): string {
    Quoted(r.name) + "," + Quoted(r.email) + "," + Quoted(r.phone.GetOr("")) + ","
    + Quoted(ResponseName(r.response)) + "," + Quoted(IntToDecimal(r.guests)) + ","
    + Quoted(EscapeQuotes(r.message.GetOr(""))) + "," + Quoted(r.createdAt)
  }

  /** The whole document: the header, then the rows joined by line breaks. */
  function Csv(rs: seq<Rsvp>): (doc: string)
    ensures StartsWith(doc, Header)
    ensures rs == [] ==> doc == Header
  {
    Header + JoinWith(Rows(rs), "\n")
  }

  function Rows(rs: seq<Rsvp>): (rows: seq<string>)
    ensures |rows| == |rs|
    ensures forall i :: 0 <= i < |rs| ==> rows[i] == Row(rs[i])
  {
    if rs == [] then [] else [Row(rs[0])] + Rows(rs[1..])
  }

  /** No field the row writes as it is holds a line break. */
  predicate SingleLine(r: Rsvp) {
    '\n' !in r.name && '\n' !in r.email && '\n' !in r.createdAt
    && (r.phone.Some? ==> '\n' !in r.phone.value)
    && (r.message.Some? ==> '\n' !in r.message.value)
  }

  lemma {:induction false} EscapeKeepsChars(s: string, c: char)
    requires c != '"' && c !in s
    ensures c !in EscapeQuotes(s)
  {
    if s != [] {
      EscapeKeepsChars(s[1..], c);
    }
  }

  lemma RowSingleLine(r: Rsvp)
    requires SingleLine(r)
    ensures '\n' !in Row(r)
  {
    EscapeKeepsChars(r.message.GetOr(""), '\n');
    var cells := [Quoted(r.name), Quoted(r.email), Quoted(r.phone.GetOr("")), Quoted(ResponseName(r.response)),
                  Quoted(IntToDecimal(r.guests)), Quoted(EscapeQuotes(r.message.GetOr(""))), Quoted(r.createdAt)];
    forall i | 0 <= i < |cells|
      ensures '\n' !in cells[i]
    {
      assert '\n' !in ResponseName(r.response);
    }
    assert Row(r) == cells[0] + "," + cells[1] + "," + cells[2] + "," + cells[3] + "," + cells[4] + ","
                     + cells[5] + "," + cells[6];
  }

  lemma {:induction false} JoinLineBreaks(rows: seq<string>)
    requires |rows| >= 1
    requires forall i :: 0 <= i < |rows| ==> '\n' !in rows[i]
    ensures CountChar(JoinWith(rows, "\n"), '\n') == |rows| - 1
  {
    if |rows| == 1 {
      CountCharAbsent(rows[0], '\n');
    } else {
      JoinLineBreaks(rows[1..]);
      CountCharAbsent(rows[0], '\n');
      CountCharAppend(rows[0], "\n", '\n');
      CountCharAppend(rows[0] + "\n", JoinWith(rows[1..], "\n"), '\n');
    }
  }

  /** With single-line fields the document has one line per RSVP after the
      header: the header's line break, then one break between each two rows
      (no trailing one), so `n` RSVPs give `max(n, 1)` line breaks. */
  lemma CsvLineBreaks(rs: seq<Rsvp>)
    requires forall i :: 0 <= i < |rs| ==> SingleLine(rs[i])
    ensures CountChar(Csv(rs), '\n') == if rs == [] then 1 else |rs|
  {
    var rows := Rows(rs);
    forall i | 0 <= i < |rows|
      ensures '\n' !in rows[i]
    {
      RowSingleLine(rs[i]);
    }
    HeaderLineBreaks();
    CountCharAppend(Header, JoinWith(rows, "\n"), '\n');
    if rs != [] {
      JoinLineBreaks(rows);
    }
  }
}
