/**
 * Times of day as the `remind` command reads them: `datetime.strptime(time, "%H:%M").time()`.
 * The accepted language is stated directly: one or two decimal digits for the hour (value at
 * most 23), a colon, one or two decimal digits for the minute (value at most 59), and nothing
 * else. The language of `%H` (`2[0-3]|[0-1]\d|\d`) and `%M` (`[0-5]\d|\d`), followed by the
 * "unconverted data remains" check, is exactly this set of strings.
 */
module Clock {
  import opened Wrappers

  /** An hour and a minute, the only parts of a `datetime.time` the reminder code compares. */
  datatype TimeOfDay = TimeOfDay(hour: nat, minute: nat) {
    predicate Valid() {
      hour < 24 && minute < 60
    }
  }

  predicate IsDigit(c: char) {
    '0' <= c <= '9'
  }

  function DigitValue(c: char): nat
    requires IsDigit(c)
  {
    c as int - '0' as int
  }

  predicate AllDigits(s: string) {
    forall k :: 0 <= k < |s| ==> IsDigit(s[k])
  }

  /** Decimal value of a one- or two-digit field. */
  function FieldValue(s: string): nat
    requires 1 <= |s| <= 2 && AllDigits(s)
  {
    if |s| == 1 then DigitValue(s[0]) else 10 * DigitValue(s[0]) + DigitValue(s[1])
  }

  /** A one- or two-digit field whose value does not exceed `max`. */
  predicate IsField(s: string, max: nat) {
    1 <= |s| <= 2 && AllDigits(s) && FieldValue(s) <= max
  }

  function Join(h: string, m: string): string {
    h + ":" + m
  }

  function ParseFields(h: string, m: string): Option<TimeOfDay> {
    if IsField(h, 23) && IsField(m, 59) then Some(TimeOfDay(FieldValue(h), FieldValue(m))) else None
  }

  /** `strptime(s, "%H:%M")`: `None` stands for the `ValueError` it raises. */
  function Parse(s: string): (r: Option<TimeOfDay>)
    ensures r.Some? ==> r.value.Valid()
  {
    if |s| >= 2 && s[1] == ':' then ParseFields(s[..1], s[2..])
    else if |s| >= 3 && s[2] == ':' then ParseFields(s[..2], s[3..])
    else None
  }

  /** Every well-formed `H:M` spelling parses to the values its digits denote. */
  lemma ParseComplete(h: string, m: string)
    requires IsField(h, 23) && IsField(m, 59)
    ensures Parse(Join(h, m)) == Some(TimeOfDay(FieldValue(h), FieldValue(m)))
  {
    var s := Join(h, m);
    assert s[|h|] == ':';
    assert s[..|h|] == h;
    assert s[|h| + 1..] == m;
    if |h| == 2 {
      assert s[1] == h[1];
    }
  }

  /** A string is accepted exactly when it is an hour field, a colon and a minute field. */
  lemma ParseAccepts(s: string)
    ensures Parse(s).Some? <==>
      exists h, m {:trigger Join(h, m)} :: s == Join(h, m) && IsField(h, 23) && IsField(m, 59)
    ensures Parse(s).Some? ==>
      exists h, m {:trigger Join(h, m)} :: s == Join(h, m) && IsField(h, 23) && IsField(m, 59)
        && Parse(s).value == TimeOfDay(FieldValue(h), FieldValue(m))
  {
    if Parse(s).Some? {
      var k := if s[1] == ':' then 1 else 2;
      assert s == Join(s[..k], s[k + 1..]);
    }
    if exists h, m {:trigger Join(h, m)} :: s == Join(h, m) && IsField(h, 23) && IsField(m, 59) {
      var h, m :| s == Join(h, m) && IsField(h, 23) && IsField(m, 59);
      ParseComplete(h, m);
    }
  }
}
