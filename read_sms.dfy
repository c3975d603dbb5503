/** The SMS reader (SMSReader in the driver): listing all stored messages with
    AT+CMGL="ALL" in text mode (3GPP TS 27.005 section 4.1), parsing the
    listing into records, deleting a message with AT+CMGD (section 3.5.4),
    and the connect-read-disconnect session. */
module ReadSms {
  import opened TextOps
  import opened Sim800c

  /** One listed message; every field is text, as parsed. */
  datatype SmsRecord = SmsRecord(index: string, status: string, sender: string,
                                 timestamp: string, content: string)

  /** The marker that starts a header line of the listing. */
  const HeaderMarker: string := "+CMGL:"

  // ---------------------------------------------------------------------------
  // The quote-aware header tokenizer

  /** The tokenizer's state: the fields so far, the field being accumulated
      (quotes included), and whether the scan is inside double quotes. */
  datatype Scan = Scan(parts: seq<string>, current: string, inQuotes: bool)

  const Start: Scan := Scan([], "", false)

  /** The field being accumulated is kept, stripped, only if it is not empty. */
  function Flush(parts: seq<string>, current: string): seq<string>
  {
    if current != "" then parts + [Strip(current)] else parts
  }

  /** One character: a quote toggles the quote state and is kept; a comma
      outside quotes ends the field; anything else is accumulated. */
  function Step(sc: Scan, c: char): Scan
  {
    if c == '"' then Scan(sc.parts, sc.current + [c], !sc.inQuotes)
    else if c == ',' && !sc.inQuotes then Scan(Flush(sc.parts, sc.current), "", sc.inQuotes)
    else Scan(sc.parts, sc.current + [c], sc.inQuotes)
  }

  function ScanAll(sc: Scan, s: string): Scan
    decreases |s|
  {
    if s == [] then sc else ScanAll(Step(sc, s[0]), s[1..])
  }

  /** The fields of a header's text after the marker. */
  function SplitFields(header: string): (fields: seq<string>)
    ensures AllStripped(fields)
  {
    var sc := ScanAll(Start, header);
    ScanKeepsStripped(Start, header);
    if sc.current != "" then StripIdempotent(sc.current); Flush(sc.parts, sc.current)
    else Flush(sc.parts, sc.current)
  }

  /** No field has whitespace at either end. */
  predicate AllStripped(parts: seq<string>)
  {
    forall k :: 0 <= k < |parts| ==> Strip(parts[k]) == parts[k]
  }

  /** Every field the scan ends is stored stripped. */
  lemma {:induction false} ScanKeepsStripped(sc: Scan, s: string)
    requires AllStripped(sc.parts)
    ensures AllStripped(ScanAll(sc, s).parts)
    decreases |s|
  {
    if s != [] {
      if sc.current != "" {
        StripIdempotent(sc.current);
      }
      ScanKeepsStripped(Step(sc, s[0]), s[1..]);
    }
  }

  /** The quote state after scanning `s` from quote state `q`. */
  function QuoteState(q: bool, s: string): bool
    decreases |s|
  {
    if s == [] then q else QuoteState(if s[0] == '"' then !q else q, s[1..])
  }

  /** Every comma of `f` lies inside quotes, starting from quote state `q`. */
  predicate CommasQuoted(q: bool, f: string)
  {
    forall k :: 0 <= k < |f| && f[k] == ',' ==> QuoteState(q, f[..k])
  }

  /** A field a header can carry whole: not empty, every comma quoted, and its
      quotes balanced. */
  predicate WholeField(f: string)
  {
    f != "" && CommasQuoted(false, f) && !QuoteState(false, f)
  }

  /** Every field is whole. */
  predicate AllWhole(fields: seq<string>)
  {
    fields == [] || (WholeField(fields[0]) && AllWhole(fields[1..]))
  }

  function StripAll(fields: seq<string>): (r: seq<string>)
    ensures |r| == |fields|
    ensures forall k :: 0 <= k < |fields| ==> r[k] == Strip(fields[k])
  {
    if fields == [] then [] else [Strip(fields[0])] + StripAll(fields[1..])
  }

  /** Scanning characters whose commas are all quoted only accumulates them. */
  lemma {:induction false} ScanQuotedRun(parts: seq<string>, cur: string, q: bool, f: string, rest: string)
    requires CommasQuoted(q, f)
    ensures ScanAll(Scan(parts, cur, q), f + rest) == ScanAll(Scan(parts, cur + f, QuoteState(q, f)), rest)
    decreases |f|
  {
    if f == [] {
      assert f + rest == rest && cur + f == cur;
    } else {
      var c, f' := f[0], f[1..];
      var q' := if c == '"' then !q else q;
      assert (f + rest)[0] == c && (f + rest)[1..] == f' + rest;
      assert f[..0] == [];
      assert Step(Scan(parts, cur, q), c) == Scan(parts, cur + [c], q');
      forall k | 0 <= k < |f'| && f'[k] == ','
        ensures QuoteState(q', f'[..k])
      {
        assert f[k + 1] == ',';
        assert f[..k + 1][0] == c && f[..k + 1][1..] == f'[..k];
      }
      ScanQuotedRun(parts, cur + [c], q', f', rest);
      assert cur + [c] + f' == cur + f;
    }
  }

  lemma AppendAssociates<T>(a: seq<T>, b: seq<T>, c: seq<T>)
    ensures (a + b) + c == a + (b + c)
  {
  }

  /** A whole field followed by a separating comma becomes one stripped part. */
  lemma FieldThenComma(parts: seq<string>, f: string, rest: string)
    requires WholeField(f)
    ensures ScanAll(Scan(parts, "", false), f + ("," + rest)) == ScanAll(Scan(parts + [Strip(f)], "", false), rest)
  {
    ScanQuotedRun(parts, "", false, f, "," + rest);
    assert "" + f == f;
    var tail := "," + rest;
    assert tail[0] == ',' && tail[1..] == rest;
    assert Step(Scan(parts, f, false), ',') == Scan(parts + [Strip(f)], "", false);
  }

  /** A last whole field becomes the last stripped part. */
  lemma LastField(parts: seq<string>, f: string)
    requires WholeField(f)
    ensures var sc := ScanAll(Scan(parts, "", false), f); Flush(sc.parts, sc.current) == parts + [Strip(f)]
  {
    ScanQuotedRun(parts, "", false, f, []);
    assert f + [] == f && "" + f == f;
  }

  /** Joining whole fields with commas and splitting the header again gives
      back the fields, stripped: quoted commas do not split, and no empty field
      appears. */
  lemma {:induction false} ScanJoinedFields(parts: seq<string>, fields: seq<string>)
    requires |fields| >= 1 && AllWhole(fields)
    ensures var sc := ScanAll(Scan(parts, "", false), Join(fields, ","));
      Flush(sc.parts, sc.current) == parts + StripAll(fields)
    decreases |fields|
  {
    var f := fields[0];
    assert WholeField(f);
    if |fields| == 1 {
      LastField(parts, f);
      assert Join(fields, ",") == f;
      assert StripAll(fields) == [Strip(f)];
    } else {
      var tail := fields[1..];
      assert Join(fields, ",") == f + ("," + Join(tail, ","));
      FieldThenComma(parts, f, Join(tail, ","));
      var sc := ScanAll(Scan(parts + [Strip(f)], "", false), Join(tail, ","));
      assert ScanAll(Scan(parts, "", false), Join(fields, ",")) == sc;
      ScanJoinedFields(parts + [Strip(f)], tail);
      var stripped := StripAll(tail);
      assert StripAll(fields) == [Strip(f)] + stripped;
      AppendAssociates(parts, [Strip(f)], stripped);
    }
  }

  /** The tokenizer inverts a comma join of whole fields. */
  lemma SplitFieldsOfJoin(fields: seq<string>)
    requires |fields| >= 1 && AllWhole(fields)
    ensures SplitFields(Join(fields, ",")) == StripAll(fields)
  {
    ScanJoinedFields([], fields);
    assert [] + StripAll(fields) == StripAll(fields);
  }

  /** An unquoted comma right after a separator adds no field: empty fields
      are dropped. */
  lemma RepeatedCommaAddsNothing(parts: seq<string>, rest: string)
    ensures ScanAll(Scan(parts, "", false), "," + rest) == ScanAll(Scan(parts, "", false), rest)
  {
    assert ("," + rest)[0] == ',' && ("," + rest)[1..] == rest;
  }

  /** A field without commas, with balanced quotes, is whole. */
  lemma CommaFreeField(f: string)
    requires f != "" && ',' !in f && !QuoteState(false, f)
    ensures WholeField(f)
  {
    assert forall k :: 0 <= k < |f| ==> f[k] in f;
  }

  lemma {:induction false} QuoteStateAppend(q: bool, a: string, b: string)
    ensures QuoteState(q, a + b) == QuoteState(QuoteState(q, a), b)
    decreases |a|
  {
    if a == [] {
      assert a + b == b;
    } else {
      assert (a + b)[0] == a[0] && (a + b)[1..] == a[1..] + b;
      QuoteStateAppend(if a[0] == '"' then !q else q, a[1..], b);
    }
  }

  lemma {:induction false} QuoteFree(q: bool, s: string)
    requires '"' !in s
    ensures QuoteState(q, s) == q
    decreases |s|
  {
    if s != [] {
      assert s[0] in s;
      assert forall c :: c in s[1..] ==> c in s;
      QuoteFree(q, s[1..]);
    }
  }

  /** A field in double quotes with no quote inside is whole, commas and all. */
  lemma QuotedField(a: string)
    requires '"' !in a
    ensures WholeField("\"" + a + "\"")
  {
    var f := "\"" + a + "\"";
    forall k | 0 <= k < |f| && f[k] == ','
      ensures QuoteState(false, f[..k])
    {
      assert 1 <= k <= |a|;
      assert f[..k] == "\"" + a[..k - 1];
      assert forall c :: c in a[..k - 1] ==> c in a;
      QuoteFree(true, a[..k - 1]);
    }
    QuoteStateAppend(false, "\"" + a, "\"");
    QuoteFree(true, a);
    assert ("\"" + a)[0] == '"' && ("\"" + a)[1..] == a;
  }

  /** Four whole fields make a list of whole fields. */
  lemma FourWhole(a: string, b: string, c: string, d: string)
    requires WholeField(a) && WholeField(b) && WholeField(c) && WholeField(d)
    ensures AllWhole([a, b, c, d])
  {
    assert [d][1..] == [] && AllWhole([d]);
    assert [c, d][1..] == [d] && AllWhole([c, d]);
    assert [b, c, d][1..] == [c, d] && AllWhole([b, c, d]);
    assert [a, b, c, d][1..] == [b, c, d];
  }

  /** Joining four fields with commas. */
  lemma JoinFour(a: string, b: string, c: string, d: string)
    ensures Join([a, b, c, d], ",") == a + "," + b + "," + c + "," + d
  {
    assert [c, d][1..] == [d];
    assert Join([c, d], ",") == c + "," + d;
    assert [b, c, d][1..] == [c, d];
    assert Join([b, c, d], ",") == b + "," + (c + "," + d);
    assert [a, b, c, d][1..] == [b, c, d];
    assert Join([a, b, c, d], ",") == a + "," + (b + "," + (c + "," + d));
  }

  /** A quoted field has no surrounding whitespace. */
  lemma QuotedStrip(x: string)
    ensures Strip("\"" + x + "\"") == "\"" + x + "\""
  {
    var f := "\"" + x + "\"";
    assert f[0] == '"' && f[|f| - 1] == '"';
    assert !IsSpace('"');
    StripNoop(f);
  }

  /** A field wrapped in double quotes. */
  function Quoted(x: string): string { "\"" + x + "\"" }

  /** A header of an index and three quoted fields, the timestamp holding a
      comma (`1,"REC UNREAD","+1234567890","23/10/15,10:20:30+00"`), splits into
      exactly those four fields: the quoted comma does not separate. */
  lemma QuotedTimestampStaysWhole(index: string, status: string, sender: string, date: string, clock: string)
    requires index != "" && ',' !in index && '"' !in index && Strip(index) == index
    requires '"' !in status && '"' !in sender && '"' !in date && '"' !in clock
    ensures SplitFields(index + "," + Quoted(status) + "," + Quoted(sender) + "," + Quoted(date + "," + clock))
            == [index, Quoted(status), Quoted(sender), Quoted(date + "," + clock)]
  {
    var stamp := date + "," + clock;
    assert '"' !in stamp by {
      assert forall c :: c in stamp ==> c in date || c == ',' || c in clock;
    }
    var f1, f2, f3 := Quoted(status), Quoted(sender), Quoted(stamp);
    QuoteFree(false, index);
    CommaFreeField(index);
    QuotedField(status);
    QuotedField(sender);
    QuotedField(stamp);
    FourWhole(index, f1, f2, f3);
    SplitFieldsOfJoin([index, f1, f2, f3]);
    JoinFour(index, f1, f2, f3);
    QuotedStrip(status);
    QuotedStrip(sender);
    QuotedStrip(stamp);
    assert StripAll([index, f1, f2, f3]) == [index, f1, f2, f3];
  }

  // ---------------------------------------------------------------------------
  // Records

  /** The record a header's fields and the following line give; the content is
      kept as received (stripped, never decoded). */
  function RecordOf(parts: seq<string>, content: string): SmsRecord
    requires |parts| >= 4
  {
    SmsRecord(Strip(parts[0]), StripQuotes(Strip(parts[1])), StripQuotes(Strip(parts[2])),
              StripQuotes(Strip(parts[3])), content)
  }

  /** The fields of a header line, or None when the stripped line does not start
      with the marker. */
  function HeaderFields(line: string): Option<seq<string>>
  {
    var l := Strip(line);
    if StartsWith(l, HeaderMarker) then Some(SplitFields(Strip(l[|HeaderMarker|..]))) else None
  }

  /** A header line with at least four fields: one that yields a record. */
  predicate IsRecordHeader(line: string)
  {
    var h := HeaderFields(line);
    h.Some? && |h.value| >= 4
  }

  /** The stripped line after position i, or "" when there is none. */
  function ContentAfter(lines: seq<string>, i: nat): string
  {
    if i + 1 < |lines| then Strip(lines[i + 1]) else ""
  }

  function RecordAt(lines: seq<string>, i: nat): SmsRecord
    requires i < |lines| && IsRecordHeader(lines[i])
  {
    RecordOf(HeaderFields(lines[i]).value, ContentAfter(lines, i))
  }

  /** The records from line i on: a record header yields a record and consumes
      the line after it (whatever that line is); any other line is skipped. */
  function ParseFrom(lines: seq<string>, i: nat): (records: seq<SmsRecord>)
    ensures i <= |lines| ==> 2 * |records| <= |lines| - i + 1
    decreases |lines| - i
  {
    if i >= |lines| then []
    else if IsRecordHeader(lines[i]) then [RecordAt(lines, i)] + ParseFrom(lines, i + 2)
    else ParseFrom(lines, i + 1)
  }

  /** The parse of a listing's data. */
  function ParseListing(data: string): (records: seq<SmsRecord>)
    ensures 2 * |records| <= |Split(data, '\n')| + 1
  {
    ParseFrom(Split(data, '\n'), 0)
  }

  /** A marker, one space and header text without surrounding whitespace make
      a header line whose fields are those of that text. */
  lemma HeaderFieldsOf(rest: string)
    requires rest != [] && !IsSpace(rest[0]) && !IsSpace(rest[|rest| - 1])
    ensures HeaderFields(HeaderMarker + " " + rest) == Some(SplitFields(rest))
  {
    var line := HeaderMarker + " " + rest;
    assert line[0] == '+' && line[|line| - 1] == rest[|rest| - 1];
    assert !IsSpace('+');
    StripNoop(line);
    assert line[..|HeaderMarker|] == HeaderMarker;
    var after := line[|HeaderMarker|..];
    assert after == " " + rest;
    assert IsSpace(' ') && after[1..] == rest;
    TrimStartNoop(rest, Spaces);
    TrimEndNoop(rest, Spaces);
    assert TrimStart(after, Spaces) == rest;
  }

  /** A quoted field without inner quotes reads back as the text inside. */
  lemma QuotedFieldValue(x: string)
    requires '"' !in x
    ensures StripQuotes(Strip(Quoted(x))) == x
  {
    QuotedStrip(x);
    if x != [] {
      assert x[0] in x && x[|x| - 1] in x;
    }
    StripQuotesOfQuoted(x);
  }

  /** The listing line `+CMGL: <index>,"<status>","<sender>","<date>,<clock>"`
      followed by a content line gives exactly one record: the index, the three
      quoted fields without their quotes (the timestamp whole, comma and all),
      and the stripped content. */
  lemma QuotedHeaderRecord(index: string, status: string, sender: string, date: string, clock: string,
                           content: string)
    requires index != "" && ',' !in index && '"' !in index && Strip(index) == index
    requires '"' !in status && '"' !in sender && '"' !in date && '"' !in clock
    ensures var rest := index + "," + Quoted(status) + "," + Quoted(sender) + "," + Quoted(date + "," + clock);
      ParseFrom([HeaderMarker + " " + rest, content], 0)
        == [SmsRecord(index, status, sender, date + "," + clock, Strip(content))]
  {
    var stamp := date + "," + clock;
    assert '"' !in stamp by {
      assert forall c :: c in stamp ==> c in date || c == ',' || c in clock;
    }
    var rest := index + "," + Quoted(status) + "," + Quoted(sender) + "," + Quoted(stamp);
    var fields := [index, Quoted(status), Quoted(sender), Quoted(stamp)];
    QuotedTimestampStaysWhole(index, status, sender, date, clock);
    assert rest[0] == index[0] && rest[|rest| - 1] == '"';
    assert !IsSpace('"');
    HeaderFieldsOf(rest);
    var lines := [HeaderMarker + " " + rest, content];
    assert HeaderFields(lines[0]) == Some(fields);
    assert ContentAfter(lines, 0) == Strip(content);
    QuotedFieldValue(status);
    QuotedFieldValue(sender);
    QuotedFieldValue(stamp);
    assert RecordAt(lines, 0) == SmsRecord(index, status, sender, stamp, Strip(content));
  }

  /** The same two lines as listing data, separated by a newline. */
  lemma QuotedListingRecord(index: string, status: string, sender: string, date: string, clock: string,
                            content: string, header: string)
    requires index != "" && ',' !in index && '"' !in index && Strip(index) == index
    requires '"' !in status && '"' !in sender && '"' !in date && '"' !in clock
    requires header == HeaderMarker + " " + (index + "," + Quoted(status) + "," + Quoted(sender) + ","
                                             + Quoted(date + "," + clock))
    requires '\n' !in header && '\n' !in content
    ensures ParseListing(header + "\n" + content)
            == [SmsRecord(index, status, sender, date + "," + clock, Strip(content))]
  {
    ListingOfTwoLines(header, content);
    QuotedHeaderRecord(index, status, sender, date, clock, content);
  }

  /** Listing data of two lines is parsed as those two lines. */
  lemma ListingOfTwoLines(header: string, content: string)
    requires '\n' !in header && '\n' !in content
    ensures ParseListing(header + "\n" + content) == ParseFrom([header, content], 0)
  {
    SplitAtSeparator(header, '\n', content);
    SplitNoSeparator(content, '\n');
    assert header + "\n" + content == header + ['\n'] + content;
    assert Split(header + "\n" + content, '\n') == [header] + [content] == [header, content];
  }

  /** The positions of the headers that yield records: record headers from
      line i on, in increasing order, never on adjacent lines, since a record
      consumes the line after its header. */
  function RecordLines(lines: seq<string>, i: nat): (pos: seq<nat>)
    ensures forall k :: 0 <= k < |pos| ==> i <= pos[k] < |lines| && IsRecordHeader(lines[pos[k]])
    ensures forall k :: 0 <= k < |pos| - 1 ==> pos[k] + 2 <= pos[k + 1]
    decreases |lines| - i
  {
    if i >= |lines| then []
    else if IsRecordHeader(lines[i]) then [i] + RecordLines(lines, i + 2)
    else RecordLines(lines, i + 1)
  }

  /** Records come out in input order: the k-th record is built from the k-th
      record header and the line right after it. */
  lemma {:induction false} RecordsInInputOrder(lines: seq<string>, i: nat)
    ensures |ParseFrom(lines, i)| == |RecordLines(lines, i)|
    ensures forall k :: 0 <= k < |RecordLines(lines, i)| ==>
      ParseFrom(lines, i)[k] == RecordAt(lines, RecordLines(lines, i)[k])
    decreases |lines| - i
  {
    if i < |lines| {
      if IsRecordHeader(lines[i]) {
        RecordsInInputOrder(lines, i + 2);
        var recs, pos := ParseFrom(lines, i + 2), RecordLines(lines, i + 2);
        forall k | 0 < k < 1 + |pos|
          ensures ([RecordAt(lines, i)] + recs)[k] == RecordAt(lines, ([i] + pos)[k])
        {
          assert ([i] + pos)[k] == pos[k - 1];
        }
      } else {
        RecordsInInputOrder(lines, i + 1);
      }
    }
  }

  /** How a header moves the cursor: one with at least four fields yields its
      record and also consumes the next line, even when that line is a header
      itself; any other line, a short header included, is skipped alone. */
  lemma HeaderAdvance(lines: seq<string>, i: nat)
    requires i < |lines|
    ensures IsRecordHeader(lines[i]) ==>
      ParseFrom(lines, i) == [RecordAt(lines, i)] + ParseFrom(lines, i + 2)
      && RecordAt(lines, i).content == (if i + 1 < |lines| then Strip(lines[i + 1]) else "")
    ensures !IsRecordHeader(lines[i]) ==> ParseFrom(lines, i) == ParseFrom(lines, i + 1)
  {
  }

  /** No surrounding double quotes. */
  predicate Unquoted(f: string)
  {
    f == [] || (!IsQuote(f[0]) && !IsQuote(f[|f| - 1]))
  }

  /** The shape of every parsed record: index and content carry no surrounding
      whitespace, status, sender and timestamp no surrounding quotes. */
  predicate WellFormedRecord(r: SmsRecord)
  {
    Strip(r.index) == r.index && Strip(r.content) == r.content
    && Unquoted(r.status) && Unquoted(r.sender) && Unquoted(r.timestamp)
  }

  lemma {:induction false} RecordsWellFormed(lines: seq<string>, i: nat)
    ensures forall k :: 0 <= k < |ParseFrom(lines, i)| ==> WellFormedRecord(ParseFrom(lines, i)[k])
    decreases |lines| - i
  {
    if i < |lines| {
      if IsRecordHeader(lines[i]) {
        RecordsWellFormed(lines, i + 2);
        var parts := HeaderFields(lines[i]).value;
        StripIdempotent(parts[0]);
        if i + 1 < |lines| { StripIdempotent(lines[i + 1]); }
        var rec := RecordAt(lines, i);
        assert WellFormedRecord(rec);
        var later := ParseFrom(lines, i + 2);
        forall k | 0 <= k < 1 + |later|
          ensures WellFormedRecord(([rec] + later)[k])
        {
          if k > 0 { assert ([rec] + later)[k] == later[k - 1]; }
        }
      } else {
        RecordsWellFormed(lines, i + 1);
      }
    }
  }

  /** The number of lines from i on that start with the marker. */
  function MarkerLines(lines: seq<string>, i: nat): nat
    decreases |lines| - i
  {
    if i >= |lines| then 0
    else (if HeaderFields(lines[i]).Some? then 1 else 0) + MarkerLines(lines, i + 1)
  }

  /** There are never more records than header lines. */
  lemma {:induction false} AtMostOneRecordPerHeader(lines: seq<string>, i: nat)
    ensures |ParseFrom(lines, i)| <= MarkerLines(lines, i)
    decreases |lines| - i
  {
    if i < |lines| {
      if IsRecordHeader(lines[i]) {
        AtMostOneRecordPerHeader(lines, i + 2);
        if i + 1 < |lines| {
          assert MarkerLines(lines, i) >= 1 + MarkerLines(lines, i + 2);
        }
      } else {
        AtMostOneRecordPerHeader(lines, i + 1);
      }
    }
  }

  /** Without a header line there is no record. */
  lemma {:induction false} NoHeaderNoRecord(lines: seq<string>, i: nat)
    requires forall k :: i <= k < |lines| ==> HeaderFields(lines[k]).None?
    ensures ParseFrom(lines, i) == []
    decreases |lines| - i
  {
    if i < |lines| {
      NoHeaderNoRecord(lines, i + 1);
    }
  }

  /** Empty listing data parses to no record. */
  lemma EmptyListingHasNoRecord()
    ensures ParseListing("") == []
  {
    assert Split("", '\n') == [""];
    assert !StartsWith("", HeaderMarker);
    NoHeaderNoRecord([""], 0);
  }

  /** The test that gates the display-only UTF-16BE decode of a content line:
      not empty, even length, hexadecimal digits only. */
  predicate LooksHexEncoded(content: string)
  {
    content != "" && |content| % 2 == 0
    && forall k :: 0 <= k < |content| ==> content[k] in "0123456789ABCDEFabcdef"
  }

  /** One hexadecimal digit, either case. */
  predicate IsHexDigit(c: char)
  {
    '0' <= c <= '9' || 'A' <= c <= 'F' || 'a' <= c <= 'f'
  }

  /** The gate's character test is the hexadecimal-digit test. */
  lemma HexDigitMembership(c: char)
    ensures c in "0123456789ABCDEFabcdef" <==> IsHexDigit(c)
  {
    var digits := "0123456789ABCDEFabcdef";
    if IsHexDigit(c) {
      if '0' <= c <= '9' {
        assert digits[c as int - '0' as int] == c;
      } else if 'A' <= c <= 'F' {
        assert digits[10 + c as int - 'A' as int] == c;
      } else {
        assert digits[16 + c as int - 'a' as int] == c;
      }
    }
  }

  function HexValue(c: char): (n: nat)
    requires IsHexDigit(c)
    ensures n < 16
  {
    if '0' <= c <= '9' then c as int - '0' as int
    else if 'A' <= c <= 'F' then 10 + c as int - 'A' as int
    else 10 + c as int - 'a' as int
  }

  /** bytes.fromhex on text without whitespace: one byte per pair of
      hexadecimal digits, None where it raises ValueError. */
  function FromHex(s: string): (r: Option<seq<nat>>)
    ensures r.Some? ==> 2 * |r.value| == |s| && forall k :: 0 <= k < |r.value| ==> r.value[k] < 256
    decreases |s|
  {
    if s == [] then Some([])
    else if |s| == 1 || !IsHexDigit(s[0]) || !IsHexDigit(s[1]) then None
    else match FromHex(s[2..])
      case None => None
      case Some(rest) => Some([16 * HexValue(s[0]) + HexValue(s[1])] + rest)
  }

  /** bytes.fromhex accepts exactly the even-length texts of hexadecimal digits. */
  lemma {:induction false} FromHexAccepts(s: string)
    ensures FromHex(s).Some? <==> |s| % 2 == 0 && forall k :: 0 <= k < |s| ==> IsHexDigit(s[k])
    decreases |s|
  {
    if |s| >= 2 {
      FromHexAccepts(s[2..]);
      assert forall k :: 2 <= k < |s| ==> s[k] == s[2..][k - 2];
    }
  }

  /** The gate admits exactly the non-empty contents that bytes.fromhex
      decodes; empty, odd-length content and content with a character that
      is not a hexadecimal digit are turned away. */
  lemma HexGateIsFromHex(content: string)
    ensures LooksHexEncoded(content) <==> content != "" && FromHex(content).Some?
    ensures content == "" || |content| % 2 == 1 ==> !LooksHexEncoded(content)
    ensures (exists k :: 0 <= k < |content| && !IsHexDigit(content[k])) ==> !LooksHexEncoded(content)
  {
    FromHexAccepts(content);
    forall k | 0 <= k < |content|
      ensures content[k] in "0123456789ABCDEFabcdef" <==> IsHexDigit(content[k])
    {
      HexDigitMembership(content[k]);
    }
  }

  lemma HexGateExamples()
    ensures LooksHexEncoded("00480065006C006C006F")
    ensures !LooksHexEncoded("Hello")
    ensures !LooksHexEncoded("") && !LooksHexEncoded("004")
  {
    assert "Hello"[1] == 'e' && 'e' in "0123456789ABCDEFabcdef";
    assert "Hello"[0] !in "0123456789ABCDEFabcdef";
  }

  // ---------------------------------------------------------------------------
  // The imperative parser

  /** The per-character loop that splits a header into fields. */
  method SplitHeaderFields(header: string) returns (parts: seq<string>)
    ensures parts == SplitFields(header)
  {
    parts := [];
    var currentPart := "";
    var inQuotes := false;
    for n := 0 to |header|
      invariant ScanAll(Scan(parts, currentPart, inQuotes), header[n..]) == ScanAll(Start, header)
    {
      assert header[n..][0] == header[n] && header[n..][1..] == header[n + 1..];
      var c := header[n];
      if c == '"' {
        inQuotes := !inQuotes;
        currentPart := currentPart + [c];
      } else if c == ',' && !inQuotes {
        if currentPart != "" {
          parts := parts + [Strip(currentPart)];
        }
        currentPart := "";
      } else {
        currentPart := currentPart + [c];
      }
    }
    if currentPart != "" {
      parts := parts + [Strip(currentPart)];
    }
  }

  /** A record header yields its record and the parse resumes two lines on. */
  lemma ParseAtRecordHeader(messages: seq<SmsRecord>, lines: seq<string>, i: nat)
    requires i < |lines| && IsRecordHeader(lines[i])
    ensures messages + ParseFrom(lines, i) == (messages + [RecordAt(lines, i)]) + ParseFrom(lines, i + 2)
  {
  }

  /** parse_sms_messages: walk the lines with a cursor, building a record from
      each header of four or more fields and the line after it. */
  method ParseSmsMessages(data: string) returns (messages: seq<SmsRecord>)
    ensures messages == ParseListing(data)
  {
    messages := [];
    var lines := Split(data, '\n');
    var i := 0;
    while i < |lines|
      invariant messages + ParseFrom(lines, i) == ParseFrom(lines, 0)
      decreases |lines| - i
    {
      var line := Strip(lines[i]);
      if StartsWith(line, HeaderMarker) {
        var header := Strip(line[|HeaderMarker|..]);
        var parts := SplitHeaderFields(header);
        assert HeaderFields(lines[i]) == Some(parts);
        if |parts| >= 4 {
          var index := Strip(parts[0]);
          var status := StripQuotes(Strip(parts[1]));
          var sender := StripQuotes(Strip(parts[2]));
          var timestamp := StripQuotes(Strip(parts[3]));
          var messageContent := "";
          if i + 1 < |lines| {
            messageContent := Strip(lines[i + 1]);
          }
          ParseAtRecordHeader(messages, lines, i);
          messages := messages + [SmsRecord(index, status, sender, timestamp, messageContent)];
          i := i + 2;
        } else {
          i := i + 1;
        }
      } else {
        assert HeaderFields(lines[i]).None?;
        i := i + 1;
      }
    }
    assert messages + [] == messages;
  }

  // ---------------------------------------------------------------------------
  // list_all_sms / delete_sms / read_and_connect

  /** Text mode first, then the listing: None when either command fails, [] for
      an empty listing, the parsed records otherwise. */
  function ListAllSmsRun(s: State): (r: Run<Option<seq<SmsRecord>>>)
    ensures var mode := Send(s, "AT+CMGF=1");
      && (mode.out.Raised? ==> r == Run(Raised, mode.post))
      && (mode.out.Done? && !mode.out.value.success ==> r == Run(Done(None), mode.post))
      && (mode.out.Done? && mode.out.value.success ==>
            var listing := Send(mode.post, "AT+CMGL=\"ALL\"");
            && r.post == listing.post
            && (listing.out.Raised? ==> r.out.Raised?)
            && (listing.out.Done? ==>
                  r.out == Done(if listing.out.value.success then Some(ParseListing(listing.out.value.data)) else None)))
  {
    var mode := Send(s, "AT+CMGF=1");
    match mode.out
    case Raised => Run(Raised, mode.post)
    case Done(modeReply) =>
      if !modeReply.success then Run(Done(None), mode.post)
      else
        var listing := Send(mode.post, "AT+CMGL=\"ALL\"");
        match listing.out
        case Raised => Run(Raised, listing.post)
        case Done(reply) =>
          if !reply.success then Run(Done(None), listing.post)
          else if reply.data == "" then
            EmptyListingHasNoRecord();
            Run(Done(Some([])), listing.post)
          else Run(Done(Some(ParseListing(reply.data))), listing.post)
  }

  /** AT+CMGD=<index>; the result is the command's success. */
  function DeleteSmsRun(s: State, index: string): (r: Run<bool>)
    ensures r.post == Send(s, "AT+CMGD=" + index).post
    ensures r.post.written == s.written + (if s.isOpen then [CommandLine("AT+CMGD=" + index)] else [])
    ensures r.out.Raised? <==> Send(s, "AT+CMGD=" + index).out.Raised?
    ensures r.out.Done? ==> r.out.value == Send(s, "AT+CMGD=" + index).out.value.success
  {
    var q := Send(s, "AT+CMGD=" + index);
    match q.out
    case Raised => Run(Raised, q.post)
    case Done(reply) => Run(Done(reply.success), q.post)
  }

  /** The body of read_and_connect between connect and disconnect. */
  function ReadSessionRun(cfg: Config, s: State): (r: Run<bool>)
    ensures r.post.disconnects == s.disconnects
  {
    EchoStepKeepsLink(cfg, s);
    var echo := DisableEchoRun(cfg, s);
    match echo.out
    case Raised => Run(Raised, echo.post)
    case Done(ok) =>
      if !ok then Run(Done(false), echo.post)
      else
        var listing := ListAllSmsRun(echo.post);
        match listing.out
        case Raised => Run(Raised, listing.post)
        case Done(messages) => Run(Done(messages.Some?), listing.post)
  }

  /** read_and_connect: connect; then the echo step and the listing, any raised
      error counting as failure; disconnect exactly once after a connect. */
  function ReadAndConnectRun(cfg: Config, s: State): (r: Run<bool>)
    ensures r.out.Done?
    ensures !cfg.portAvailable ==> r == Run(Done(false), s)
    ensures cfg.portAvailable ==> !r.post.isOpen && r.post.disconnects == s.disconnects + 1
    ensures r.out == Done(true) <==>
      cfg.portAvailable && ReadSessionRun(cfg, ConnectRun(cfg, s).post).out == Done(true)
  {
    var c := ConnectRun(cfg, s);
    if c.out == Done(false) then c
    else
      var body := ReadSessionRun(cfg, c.post);
      Run(Done(body.out == Done(true)), DisconnectState(body.post))
  }

  /** The session succeeds exactly when the echo step and the listing both do. */
  lemma ReadSessionSucceeds(cfg: Config, s: State)
    ensures ReadSessionRun(cfg, s).out == Done(true) <==>
      DisableEchoRun(cfg, s).out == Done(true)
      && ListAllSmsRun(DisableEchoRun(cfg, s).post).out.Done?
      && ListAllSmsRun(DisableEchoRun(cfg, s).post).out.value.Some?
  {
  }

  method ListAllSms(m: Modem) returns (r: Outcome<Option<seq<SmsRecord>>>)
    modifies m
    ensures var run := ListAllSmsRun(old(m.View())); r == run.out && m.View() == run.post
  {
    var cmgfResult :- m.SendAtCommand("AT+CMGF=1");
    if !cmgfResult.success {
      return Done(None);
    }
    var result :- m.SendAtCommand("AT+CMGL=\"ALL\"");
    if !result.success {
      return Done(None);
    }
    if result.data == "" {
      return Done(Some([]));
    }
    var messages := ParseSmsMessages(result.data);
    return Done(Some(messages));
  }

  method DeleteSms(m: Modem, index: string) returns (r: Outcome<bool>)
    modifies m
    ensures var run := DeleteSmsRun(old(m.View()), index); r == run.out && m.View() == run.post
  {
    var result :- m.SendAtCommand("AT+CMGD=" + index);
    return Done(result.success);
  }

  method ReadSession(m: Modem) returns (r: Outcome<bool>)
    modifies m
    ensures var run := ReadSessionRun(m.Cfg(), old(m.View())); r == run.out && m.View() == run.post
  {
    var echoed :- m.DisableEcho();
    if !echoed {
      return Done(false);
    }
    var messages :- ListAllSms(m);
    return Done(messages.Some?);
  }

  method ReadAndConnect(m: Modem) returns (ok: bool)
    modifies m
    ensures var run := ReadAndConnectRun(m.Cfg(), old(m.View())); Done(ok) == run.out && m.View() == run.post
  {
    var initialSuccess := m.Connect();
    if !initialSuccess {
      return false;
    }
    var outcome := ReadSession(m);
    m.Disconnect();
    return outcome == Done(true);
  }
}
