/** A validation schema field as an ordered list of rules, each with the
    message it reports; a field's error is the message of the first rule its
    value breaks (the form shows one message per field). The e-mail format
    test and "today" are inputs of the rules that need them. */
module FormRules {
  import opened Common
  import opened Numbers

  /** A calendar date */
  datatype Date = Date(year: nat, month: nat, day: nat)

  /** Chronological order on dates */
  predicate NotAfter(d: Date, today: Date)
  {
    || d.year < today.year
    || (d.year == today.year && d.month < today.month)
    || (d.year == today.year && d.month == today.month && d.day <= today.day)
  }

  /** A `YYYY-MM-DD` string, the value a date input produces, read as a date */
  function ParseIsoDate(s: string): (r: Option<Date>)
    ensures r.Some? ==> |s| == 10 && 1 <= r.value.month <= 12 && 1 <= r.value.day <= 31
  {
    if |s| == 10 && s[4] == '-' && s[7] == '-'
       && AllDigits(s[..4]) && AllDigits(s[5..7]) && AllDigits(s[8..])
       && 1 <= DigitsValue(s[5..7]) <= 12 && 1 <= DigitsValue(s[8..]) <= 31
    then Some(Date(DigitsValue(s[..4]), DigitsValue(s[5..7]), DigitsValue(s[8..])))
    else None
  }

  /** The `YYYY-MM-DD` text of a date, as a date input writes it */
  function FormatIsoDate(d: Date): (s: string)
    ensures |s| == 10 && s[4] == '-' && s[7] == '-'
  {
    FixedDigits(d.year, 4) + "-" + FixedDigits(d.month, 2) + "-" + FixedDigits(d.day, 2)
  }

  /** Reading the text of a date with a four-digit year, a month 1-12 and a
      day 1-31 gives that date back: year, month and day in that order. */
  lemma IsoDateRoundTrip(d: Date)
    requires d.year < 10000 && 1 <= d.month <= 12 && 1 <= d.day <= 31
    ensures ParseIsoDate(FormatIsoDate(d)) == Some(d)
  {
    var s := FormatIsoDate(d);
    assert s[..4] == FixedDigits(d.year, 4);
    assert s[5..7] == FixedDigits(d.month, 2);
    assert s[8..] == FixedDigits(d.day, 2);
    assert Pow10(2) == 100 && Pow10(4) == 10000;
    FixedDigitsValue(d.year, 4);
    FixedDigitsValue(d.month, 2);
    FixedDigitsValue(d.day, 2);
  }

  /** Every accepted string is the text of the date read from it. */
  lemma IsoDateCanonical(s: string)
    requires ParseIsoDate(s).Some?
    ensures ParseIsoDate(s).value.year < 10000
    ensures FormatIsoDate(ParseIsoDate(s).value) == s
  {
    FixedDigitsOfValue(s[..4]);
    FixedDigitsOfValue(s[5..7]);
    FixedDigitsOfValue(s[8..]);
    assert Pow10(4) == 10000;
    assert s == s[..4] + "-" + s[5..7] + "-" + s[8..];
  }

  datatype Rule =
    | Required(message: string)                          // .required()
    | MinLength(min: nat, message: string)               // .min(n)
    | MaxLength(max: nat, message: string)               // .max(n)
    | DigitRun(low: nat, high: nat, message: string)     // .matches(/^\d{low,high}$/)
    | OneOf(options: seq<string>, message: string)       // .oneOf([...])
    | EmailFormat(isEmail: string -> bool, message: string)  // .email()
    | IsDate(message: string)                            // the date() type check
    | NotAfterDate(today: Date, message: string)         // .max(new Date())

  /** The regular expression `^\d{low,high}$`, matched one character at a time */
  predicate MatchesDigitRun(s: string, low: nat, high: nat)
  {
    if |s| == 0 then low == 0
    else high > 0 && IsDigit(s[0]) && MatchesDigitRun(s[1..], if low > 0 then low - 1 else 0, high - 1)
  }

  /** The matcher accepts exactly the strings of between `low` and `high` ASCII digits. */
  lemma {:induction false} DigitRunIff(s: string, low: nat, high: nat)
    ensures MatchesDigitRun(s, low, high) <==> low <= |s| <= high && AllDigits(s)
  {
    if |s| > 0 && high > 0 {
      DigitRunIff(s[1..], if low > 0 then low - 1 else 0, high - 1);
      assert AllDigits(s) <==> IsDigit(s[0]) && AllDigits(s[1..]) by {
        if IsDigit(s[0]) && AllDigits(s[1..]) {
          forall i | 0 <= i < |s| ensures IsDigit(s[i]) {
            if i > 0 { assert s[i] == s[1..][i - 1]; }
          }
        }
      }
    }
  }

  predicate Passes(rule: Rule, value: string)
  {
    match rule
    case Required(_) => |value| > 0
    case MinLength(min, _) => |value| >= min
    case MaxLength(max, _) => |value| <= max
    case DigitRun(low, high, _) => MatchesDigitRun(value, low, high)
    case OneOf(options, _) => value in options
    case EmailFormat(isEmail, _) => isEmail(value)
    case IsDate(_) => ParseIsoDate(value).Some?
    case NotAfterDate(today, _) => ParseIsoDate(value).None? || NotAfter(ParseIsoDate(value).value, today)
  }

  /** The message of the first rule `value` breaks, or none when it passes them all */
  function FirstError(rules: seq<Rule>, value: string): (r: Option<string>)
    ensures r.None? <==> forall i :: 0 <= i < |rules| ==> Passes(rules[i], value)
    ensures r.Some? ==> exists i :: 0 <= i < |rules| && !Passes(rules[i], value)
                                    && r.value == rules[i].message
                                    && forall j :: 0 <= j < i ==> Passes(rules[j], value)
  {
    if |rules| == 0 then None
    else if !Passes(rules[0], value) then Some(rules[0].message)
    else
      var r := FirstError(rules[1..], value);
      assert r.Some? ==> exists i :: 0 <= i < |rules| && !Passes(rules[i], value)
                                     && r.value == rules[i].message
                                     && forall j :: 0 <= j < i ==> Passes(rules[j], value) by {
        if r.Some? {
          var k :| 0 <= k < |rules| - 1 && !Passes(rules[1..][k], value) && r.value == rules[1..][k].message
                   && forall j :: 0 <= j < k ==> Passes(rules[1..][j], value);
          assert forall j :: 0 <= j < k + 1 ==> Passes(rules[j], value) by {
            forall j | 0 <= j < k + 1 ensures Passes(rules[j], value) {
              if j > 0 { assert rules[j] == rules[1..][j - 1]; }
            }
          }
        }
      }
      r
  }

  /** A field with three rules has no error exactly when it passes all three. */
  lemma ThreeRules(a: Rule, b: Rule, c: Rule, value: string)
    ensures FirstError([a, b, c], value).None? <==> Passes(a, value) && Passes(b, value) && Passes(c, value)
  {
    var rules := [a, b, c];
    assert rules[0] == a && rules[1] == b && rules[2] == c;
  }

  /** A field with two rules has no error exactly when it passes both. */
  lemma TwoRules(a: Rule, b: Rule, value: string)
    ensures FirstError([a, b], value).None? <==> Passes(a, value) && Passes(b, value)
  {
    var rules := [a, b];
    assert rules[0] == a && rules[1] == b;
  }

  /** An empty value always reports the required-message of a field that starts with `required`. */
  lemma EmptyReportsRequired(message: string, rest: seq<Rule>)
    ensures FirstError([Required(message)] + rest, "") == Some(message)
  {
  }
}
