/** The archive duration string (app.py:136-138): colon-separated fields,
    each read by int(), weighted by powers of 60 with the least significant
    field last. */
module Duration {
  import opened Py

  /** sum(x * 60 ** i for i, x in enumerate(reversed(fields))): the last
      field weighs 1, the one before it 60, and so on. */
  function Base60(fields: seq<int>): int {
    if fields == [] then 0 else fields[|fields| - 1] + 60 * Base60(fields[..|fields| - 1])
  }

  /** int() applied to every field in turn; None stands for the ValueError
      raised by the first field int() rejects. */
  function ParseFields(parts: seq<string>): Option<seq<int>> {
    if parts == [] then Some([])
    else
      match (ParseFields(parts[..|parts| - 1]), ParseInt(parts[|parts| - 1]))
      case (Some(front), Some(last)) => Some(front + [last])
      case _ => None
  }

  /** The fields are read exactly when int() accepts every one of them, and
      then each value is what int() gives for that field. */
  lemma {:induction false} ParseFieldsAt(parts: seq<string>)
    ensures var r := ParseFields(parts);
            && (r.Some? <==> forall i :: 0 <= i < |parts| ==> ParseInt(parts[i]).Some?)
            && (r.Some? ==> (&& |r.value| == |parts|
                             && forall i :: 0 <= i < |parts| ==> ParseInt(parts[i]) == Some(r.value[i])))
  {
    if parts != [] {
      var front := parts[..|parts| - 1];
      ParseFieldsAt(front);
      assert forall i :: 0 <= i < |front| ==> front[i] == parts[i];
    }
  }

  /** The seconds a duration string stands for; None where int() raises. */
  function ParseDuration(s: string): Option<int> {
    match ParseFields(Split(s, ':'))
    case None => None
    case Some(fields) => Some(Base60(fields))
  }

  /** The fields written in decimal and joined by ':', the form the
      duration string is read in. */
  function FormatDuration(fields: seq<nat>): string
    requires |fields| > 0
  {
    Join(Decimals(fields), ':')
  }

  function Decimals(fields: seq<nat>): (r: seq<string>)
    ensures |r| == |fields|
    ensures forall i :: 0 <= i < |r| ==> r[i] == NatToString(fields[i])
  {
    seq(|fields|, i requires 0 <= i < |fields| => NatToString(fields[i]))
  }

  lemma {:induction false} ParseFieldsOfDecimals(fields: seq<nat>)
    ensures ParseFields(Decimals(fields)) == Some(fields)
  {
    if fields != [] {
      var n := |fields|;
      var front := fields[..n - 1];
      var last := fields[n - 1];
      var parts := Decimals(fields);
      ParseFieldsOfDecimals(front);
      assert parts[..n - 1] == Decimals(front);
      assert ParseFields(parts[..n - 1]) == Some(front);
      ParseIntOfIntToString(last);
      assert parts[n - 1] == IntToString(last);
      assert ParseInt(parts[n - 1]) == Some(last);
      assert fields == front + [last];
    }
  }

  /** Reading a well-formed duration string gives the base-60 value of its
      fields, whatever their number. */
  lemma ParseFormatDuration(fields: seq<nat>)
    requires |fields| > 0
    ensures ParseDuration(FormatDuration(fields)) == Some(Base60(fields))
  {
    var parts := Decimals(fields);
    assert forall i :: 0 <= i < |parts| ==> ':' !in parts[i];
    SplitJoin(parts, ':');
    ParseFieldsOfDecimals(fields);
  }

  /** "h:m:s" is h * 3600 + m * 60 + s seconds, whatever texts int()
      reads the fields from: zero-padded "1:02:03" is 3723. */
  lemma ParseHoursMinutesSeconds(a: string, b: string, c: string, h: int, m: int, s: int)
    requires ':' !in a && ':' !in b && ':' !in c
    requires ParseInt(a) == Some(h) && ParseInt(b) == Some(m) && ParseInt(c) == Some(s)
    ensures ParseDuration(a + ":" + b + ":" + c) == Some(h * 3600 + m * 60 + s)
  {
    var parts := [a, b, c];
    SplitJoin(parts, ':');
    assert parts[1..][1..] == [c];
    assert Join(parts[1..], ':') == b + ":" + c;
    assert Join(parts, ':') == a + ":" + b + ":" + c;
    ParseFieldsAt(parts);
    assert ParseFields(parts).value == [h, m, s];
    Base60Steps(h, m, s);
  }

  lemma Base60Steps(h: int, m: int, s: int)
    ensures Base60([m, s]) == m * 60 + s
    ensures Base60([h, m, s]) == h * 3600 + m * 60 + s
  {
    var one: seq<int> := [h];
    var two: seq<int> := [h, m];
    var three: seq<int> := [h, m, s];
    assert one[..0] == [] && Base60(one) == h;
    assert two[..1] == one && Base60(two) == m + 60 * h;
    assert three[..2] == two && Base60(three) == s + 60 * (m + 60 * h);
    var ms: seq<int> := [m, s];
    assert ms[..1] == [m] && [m][..0] == [];
    assert Base60([m]) == m;
  }

  /** "m:s" is m * 60 + s seconds, whatever texts int() reads the fields
      from: the placeholder length "5:23" is 323, and "5:03" is 303. */
  lemma ParseMinutesSeconds(a: string, b: string, m: int, s: int)
    requires ':' !in a && ':' !in b
    requires ParseInt(a) == Some(m) && ParseInt(b) == Some(s)
    ensures ParseDuration(a + ":" + b) == Some(m * 60 + s)
  {
    var parts := [a, b];
    SplitJoin(parts, ':');
    assert parts[1..] == [b];
    assert Join(parts, ':') == a + ":" + b;
    ParseFieldsAt(parts);
    assert ParseFields(parts).value == [m, s];
    Base60Steps(0, m, s);
  }

  /** int() of a one-digit field. */
  lemma ParseOneDigit(d: char)
    requires IsDigit(d)
    ensures ParseInt([d]) == Some(DigitValue(d))
  {
    DigitIsNotSpace(d);
    StripUnchanged([d]);
    assert IsDigitRun([d]);
    assert [d][..0] == [];
    assert RunValue([d]) == DigitValue(d);
  }

  /** int() of a two-digit field, a leading zero included. */
  lemma ParseTwoDigits(d: char, e: char)
    requires IsDigit(d) && IsDigit(e)
    ensures ParseInt([d, e]) == Some(DigitValue(d) * 10 + DigitValue(e))
  {
    var t := [d, e];
    DigitIsNotSpace(d);
    DigitIsNotSpace(e);
    StripUnchanged(t);
    assert Strip(t) == t;
    assert t[1..] == [e] && IsDigitRun([e]);
    assert IsDigitRun(t);
    assert t[0] != '+' && t[0] != '-';
    assert t[..1] == [d] && [d][..0] == [];
    assert RunValue([d]) == DigitValue(d);
    assert RunValue(t) == DigitValue(d) * 10 + DigitValue(e);
  }

  /** A zero-padded duration, as archives are usually written. */
  lemma ZeroPadded()
    ensures ParseDuration("1:02:03") == Some(3723)
  {
    ParseTwoDigits('0', '2');
    ParseTwoDigits('0', '3');
    ParseOneDigit('1');
    ParseHoursMinutesSeconds("1", "02", "03", 1, 2, 3);
    assert "1" + ":" + "02" + ":" + "03" == "1:02:03";
  }

  /** A field without a digit, such as the empty field of "5:" or of "",
      makes the whole duration unreadable: int() raises on it. */
  lemma FieldWithoutDigit(s: string, i: nat)
    requires i < |Split(s, ':')|
    requires forall j :: 0 <= j < |Split(s, ':')[i]| ==> !IsDigit(Split(s, ':')[i][j])
    ensures ParseDuration(s) == None
  {
    ParseIntNeedsDigit(Split(s, ':')[i]);
    UnreadableField(s, i);
  }

  /** A field that is not a number makes the whole duration unreadable. */
  lemma UnreadableField(s: string, i: nat)
    requires i < |Split(s, ':')| && ParseInt(Split(s, ':')[i]).None?
    ensures ParseDuration(s) == None
  {
    ParseFieldsAt(Split(s, ':'));
  }
}
