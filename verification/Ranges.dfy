/** Single byte ranges: parsing a Range header against a known size, and what a client that resumes
    its downloads puts together. The forms are those of RFC 9110, section 14.1.2. */
module Ranges {
  import opened Collections

  // ---------- Text ----------

  predicate IsDigit(c: char) { '0' <= c <= '9' }

  predicate AllDigits(s: string) {
    forall i :: 0 <= i < |s| ==> IsDigit(s[i])
  }

  /** The white space trim() removes: ASCII white space, the no-break spaces and Unicode separators. */
  predicate IsSpace(c: char) {
    || '\U{0009}' <= c <= '\U{000D}' || c == ' ' || c == '\U{00A0}' || c == '\U{1680}'
    || '\U{2000}' <= c <= '\U{200A}' || c == '\U{2028}' || c == '\U{2029}' || c == '\U{202F}'
    || c == '\U{205F}' || c == '\U{3000}' || c == '\U{FEFF}'
  }

  function TrimStart(s: string): string {
    if s != "" && IsSpace(s[0]) then TrimStart(s[1..]) else s
  }

  function TrimEnd(s: string): string {
    if s != "" && IsSpace(s[|s| - 1]) then TrimEnd(s[..|s| - 1]) else s
  }

  function Trim(s: string): string { TrimEnd(TrimStart(s)) }

  /** The number a run of decimal digits stands for. */
  function Value(digits: string): nat
    requires AllDigits(digits)
  {
    if digits == "" then 0 else 10 * Value(digits[..|digits| - 1]) + (digits[|digits| - 1] - '0') as nat
  }

  function Decimal(n: nat): string {
    (if n < 10 then "" else Decimal(n / 10)) + [('0' as int + n % 10) as char]
  }

  lemma {:induction false} DecimalValue(n: nat)
    ensures Decimal(n) != "" && AllDigits(Decimal(n)) && Value(Decimal(n)) == n
  {
    var last := [('0' as int + n % 10) as char];
    if n < 10 {
      assert Decimal(n) == last;
    } else {
      DecimalValue(n / 10);
      assert Decimal(n)[..|Decimal(n)| - 1] == Decimal(n / 10);
    }
  }

  // ---------- Parsing ----------

  datatype Range = Full | Unsatisfiable | Part(start: nat, end: nat)

  function DigitRun(s: string): (n: nat)
    ensures n <= |s| && AllDigits(s[..n]) && (n < |s| ==> !IsDigit(s[n]))
  {
    if s == "" || !IsDigit(s[0]) then 0 else 1 + DigitRun(s[1..])
  }

  const UNIT: string := "bytes="

  /** The two captures of ^bytes=(\d*)-(\d*)$. */
  function Captures(s: string): Option<(string, string)> {
    if |s| < 6 || s[..6] != UNIT then None
    else
      var rest := s[6..];
      var n := DigitRun(rest);
      if n < |rest| && rest[n] == '-' && AllDigits(rest[n + 1..]) then Some((rest[..n], rest[n + 1..])) else None
  }

  function ParseRange(header: Option<string>, size: nat): Range {
    if header.None? || header.value == "" then Full
    else
      var m := Captures(Trim(header.value));
      if m.None? then Full else Resolve(m.value.0, m.value.1, size)
  }

  function Resolve(first: string, last: string, size: nat): Range
    requires AllDigits(first) && AllDigits(last)
  {
    if first == "" && last == "" then Full
    else if first == "" && Value(last) <= 0 then Unsatisfiable
    else
      var start := if first == "" then Max(0, size - Value(last)) else Value(first);
      var end := if first == "" || last == "" then size - 1 else Value(last);
      if start > end || start >= size then Unsatisfiable
      else Part(start, if end >= size then size - 1 else end)
  }

  // ---------- What the header asks for ----------

  /** The header has one of the forms first-last, first- and -suffix. */
  ghost predicate HasForm(s: string, first: string, last: string) {
    s == UNIT + first + "-" + last && AllDigits(first) && AllDigits(last)
  }

  /** The captures are the only way to read a string in this form. */
  lemma CapturesExact(s: string, first: string, last: string)
    ensures Captures(s) == Some((first, last)) <==> HasForm(s, first, last)
  {
    if HasForm(s, first, last) {
      var rest := s[6..];
      assert s[..6] == UNIT && rest == first + "-" + last;
      var n := DigitRun(rest);
      assert rest[|first|] == '-';
      assert forall i :: 0 <= i < |first| ==> rest[i] == first[i];
      assert n == |first|;
      assert rest[..n] == first && rest[n + 1..] == last;
    }
  }

  /** Byte i of a blob of this size is asked for: the last `suffix` bytes, or from first on, up to
      last if there is one. */
  predicate AsksFor(first: string, last: string, size: nat, i: int)
    requires AllDigits(first) && AllDigits(last)
  {
    && 0 <= i < size
    && (if first == "" then i >= size - Value(last) else Value(first) <= i && (last != "" ==> i <= Value(last)))
  }

  /** A header in range form is answered with exactly the bytes it asks for, and refused exactly when
      it asks for none; any other header gets the whole blob. */
  lemma ParsesWhatIsAsked(header: string, size: nat, first: string, last: string)
    requires HasForm(Trim(header), first, last) && (first != "" || last != "")
    ensures var r := ParseRange(Some(header), size);
      && !r.Full?
      && (r.Unsatisfiable? <==> forall i :: !AsksFor(first, last, size, i))
      && (r.Part? ==> forall i :: r.start <= i <= r.end <==> AsksFor(first, last, size, i))
  {
    CapturesExact(Trim(header), first, last);
    assert header != "" by {
      assert Trim(header) != "";
    }
    var r := ParseRange(Some(header), size);
    if r.Part? {
      assert AsksFor(first, last, size, r.start);
    }
  }

  lemma OtherHeadersGetAll(header: string, size: nat)
    requires forall first, last :: first != "" || last != "" ==> !HasForm(Trim(header), first, last)
    ensures ParseRange(Some(header), size) == Full
  {
    var m := Captures(Trim(header));
    if m.Some? {
      CapturesExact(Trim(header), m.value.0, m.value.1);
    }
  }

  /** Every accepted range lies inside the blob. */
  lemma AcceptedIsInside(header: Option<string>, size: nat)
    ensures var r := ParseRange(header, size); r.Part? ==> r.start <= r.end < size
  {
  }

  // ---------- Round trip ----------

  function Print(first: nat, last: nat): string { UNIT + Decimal(first) + "-" + Decimal(last) }
  function PrintFrom(first: nat): string { UNIT + Decimal(first) + "-" }

  lemma {:induction false} TrimPadded(before: string, body: string, after: string)
    requires body != "" && !IsSpace(body[0]) && !IsSpace(body[|body| - 1])
    requires (forall i :: 0 <= i < |before| ==> IsSpace(before[i])) && forall i :: 0 <= i < |after| ==>
        IsSpace(after[i])
    ensures Trim(before + body + after) == body
    decreases |before| + |after|
  {
    var s := before + body + after;
    if before != "" {
      assert s[1..] == before[1..] + body + after;
      TrimPadded(before[1..], body, after);
    } else {
      assert s[0] == body[0] && TrimStart(s) == s;
      if after != "" {
        var n := |after| - 1;
        assert s[|s| - 1] == after[n];
        assert s[..|s| - 1] == before + body + after[..n];
        TrimPadded(before, body, after[..n]);
      } else {
        assert s == body;
      }
    }
  }

  /** Printing a range and parsing it, whatever the padding, gives it back, cut off at the end of
      the blob; it is refused exactly when it is empty or starts past the end. */
  lemma RoundTrip(first: nat, last: nat, size: nat, before: string, after: string)
    requires (forall i :: 0 <= i < |before| ==> IsSpace(before[i])) && forall i :: 0 <= i < |after| ==>
        IsSpace(after[i])
    ensures ParseRange(Some(before + Print(first, last) + after), size) ==
            if first <= last && first < size then Part(first, Min(last, size - 1)) else Unsatisfiable
  {
    DecimalValue(first);
    DecimalValue(last);
    var s := Print(first, last);
    assert s[|s| - 1] == Decimal(last)[|Decimal(last)| - 1];
    TrimPadded(before, s, after);
    CapturesExact(s, Decimal(first), Decimal(last));
  }

  lemma RoundTripFrom(first: nat, size: nat)
    ensures ParseRange(Some(PrintFrom(first)), size) == if first < size then Part(first, size - 1) else Unsatisfiable
  {
    DecimalValue(first);
    var s := PrintFrom(first);
    assert s[|s| - 1] == '-';
    TrimPadded("", s, "");
    assert "" + s + "" == s;
    assert s == UNIT + Decimal(first) + "-" + "";
    CapturesExact(s, Decimal(first), "");
  }

  /** A header that is not in range form: none, an empty one, or one that reads in no such way. */
  ghost predicate IsPlain(header: Option<string>) {
    header.Some? ==> forall first, last :: first != "" || last != "" ==> !HasForm(Trim(header.value), first, last)
  }

  lemma PlainGetsAll(header: Option<string>, size: nat)
    requires IsPlain(header)
    ensures ParseRange(header, size) == Full
  {
    if header.Some? {
      OtherHeadersGetAll(header.value, size);
    }
  }

  /** The header a video player sends, letter by letter, and two of its relatives. */
  lemma Examples()
    ensures ParseRange(Some(" bytes=10-25\t"), 1000) == Part(10, 25)
    ensures ParseRange(Some("\U{00A0}bytes=10-25\U{FEFF}"), 20) == Part(10, 19)
    ensures ParseRange(Some("bytes=9-"), 12) == Part(9, 11)
    ensures ParseRange(Some("bytes=-5"), 12) == Part(7, 11)
  {
    PaddedExample();
    UnicodeExample();
    OpenExample();
    SuffixExample();
  }

  lemma PaddedExample()
    ensures ParseRange(Some(" bytes=10-25\t"), 1000) == Part(10, 25)
  {
    PrintsTen();
    assert " " + Print(10, 25) + "\t" == " bytes=10-25\t";
    RoundTrip(10, 25, 1000, " ", "\t");
  }

  lemma UnicodeExample()
    ensures ParseRange(Some("\U{00A0}bytes=10-25\U{FEFF}"), 20) == Part(10, 19)
  {
    PrintsTen();
    assert "\U{00A0}" + Print(10, 25) + "\U{FEFF}" == "\U{00A0}bytes=10-25\U{FEFF}";
    RoundTrip(10, 25, 20, "\U{00A0}", "\U{FEFF}");
  }

  lemma OpenExample()
    ensures ParseRange(Some("bytes=9-"), 12) == Part(9, 11)
  {
    assert Decimal(9) == "9";
    assert PrintFrom(9) == "bytes=9-";
    RoundTripFrom(9, 12);
  }

  lemma PrintsTen()
    ensures Print(10, 25) == "bytes=10-25"
  {
    assert Decimal(10) == Decimal(1) + ['0'] && Decimal(25) == Decimal(2) + ['5'];
    assert Decimal(10) == "10" && Decimal(25) == "25";
  }

  lemma SuffixExample()
    ensures ParseRange(Some("bytes=-5"), 12) == Part(7, 11)
  {
    var s := "bytes=-5";
    TrimPadded("", s, "");
    assert "" + s + "" == s;
    assert s == UNIT + "" + "-" + "5";
    CapturesExact(s, "", "5");
    assert "5"[..0] == "" && Value("") == 0;
    assert Value("5") == 5;
  }
}
