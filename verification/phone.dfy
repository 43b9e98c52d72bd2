/** Sign-in identifiers: the e-mail test and the Sri Lankan phone-number
    normalisation shared by the password-reset route, the sign-up page and
    the sign-in page. */
module Phone {
  import opened Strings

  /** `isEmail`: anything with an `@` is treated as an e-mail address. */
  predicate IsEmail(identifier: string) {
    '@' in identifier
  }

  /** `identifier.includes('@')` is the same test. */
  lemma IsEmailIsIncludes(identifier: string)
    ensures IsEmail(identifier) <==> Contains(identifier, "@")
  {
    ContainsChar(identifier, '@');
  }

  /** `formatPhone`: trim, then give the number the `+94` country code
      unless it already starts with `+`. A leading trunk `0` is replaced, a
      bare `94` gains the `+`, anything else gets `+94` in front. */
  function FormatPhone(value: string): (r: string)
    ensures var t := Trim(value);
      && (StartsWith(t, "+") ==> r == t)
      && (!StartsWith(t, "+") && StartsWith(t, "0") ==> r == "+94" + t[1..])
      && (!StartsWith(t, "+") && !StartsWith(t, "0") && StartsWith(t, "94") ==> r == "+" + t)
      && (!StartsWith(t, "+") && !StartsWith(t, "0") && !StartsWith(t, "94") ==> r == "+94" + t)
  {
    var t := Trim(value);
    if StartsWith(t, "+") then t
    else if StartsWith(t, "0") then "+94" + t[1..]
    else if StartsWith(t, "94") then "+" + t
    else "+94" + t
  }

  /** The three prefix tests, as the pages write them: a look at the
      first character, or at the first two. */
  lemma PrefixTests(t: string)
    ensures StartsWith(t, "+") <==> |t| > 0 && t[0] == '+'
    ensures StartsWith(t, "0") <==> |t| > 0 && t[0] == '0'
    ensures StartsWith(t, "94") <==> |t| >= 2 && t[..2] == "94"
  {
    if |t| >= 2 && t[..2] == "94" {
      assert t[0] == '9' && t[1] == '4';
    }
  }

  /** Every normalised number starts with `+`, has no surrounding
      whitespace, and keeps the trimmed input as a suffix or drops only the
      trunk `0`. */
  lemma FormatPhoneShape(value: string)
    ensures var r := FormatPhone(value); var t := Trim(value);
      && |r| > 0 && r[0] == '+'
      && !IsWhitespace(r[|r| - 1])
      && (r[|r| - |t|..] == t || (|t| > 0 && t[0] == '0' && r[|r| - |t| + 1..] == t[1..]))
  {
    var t := Trim(value);
    var r := FormatPhone(value);
    if |t| > 1 || (|t| == 1 && t[0] != '0') {
      assert r[|r| - 1] == t[|t| - 1];
    }
  }

  /** A clean number (no whitespace at its ends) is normalised without
      being trimmed. */
  lemma FormatClean(t: string)
    requires t == [] || (!IsWhitespace(t[0]) && !IsWhitespace(t[|t| - 1]))
    ensures FormatPhone(t) ==
      if StartsWith(t, "+") then t
      else if StartsWith(t, "0") then "+94" + t[1..]
      else if StartsWith(t, "94") then "+" + t
      else "+94" + t
  {
    TrimClean(t);
  }

  /** Normalising twice is normalising once. */
  lemma FormatPhoneIdempotent(value: string)
    ensures FormatPhone(FormatPhone(value)) == FormatPhone(value)
  {
    var r := FormatPhone(value);
    FormatPhoneShape(value);
    FormatClean(r);
    assert StartsWith(r, "+");
  }

  /** A national number: no whitespace at its ends, and none of the three
      prefixes that the normalisation treats specially. */
  predicate National(n: string) {
    && (n == [] || (!IsWhitespace(n[0]) && !IsWhitespace(n[|n| - 1])))
    && !StartsWith(n, "+") && !StartsWith(n, "0") && !StartsWith(n, "94")
  }

  lemma FormatNational(n: string)
    requires National(n)
    ensures FormatPhone(n) == "+94" + n
  {
    FormatClean(n);
  }

  lemma FormatTrunk(n: string)
    requires National(n)
    ensures FormatPhone("0" + n) == "+94" + n
  {
    var z := "0" + n;
    assert z[0] == '0' && z[1..] == n;
    assert z[|z| - 1] == (if |n| == 0 then '0' else n[|n| - 1]);
    FormatClean(z);
  }

  lemma FormatCountryCode(n: string)
    requires National(n)
    ensures FormatPhone("94" + n) == "+94" + n
  {
    var c := "94" + n;
    assert c[0] == '9' && c[1] == '4' && "94" <= c;
    assert c[|c| - 1] == (if |n| == 0 then '4' else n[|n| - 1]);
    FormatClean(c);
  }

  lemma FormatInternational(n: string)
    requires National(n)
    ensures FormatPhone("+94" + n) == "+94" + n
  {
    var p := "+94" + n;
    assert p[0] == '+' && "+" <= p;
    assert p[|p| - 1] == (if |n| == 0 then '4' else n[|n| - 1]);
    FormatClean(p);
  }

  /** The four ways of writing a national number all normalise to the same
      `+94` form. */
  lemma FormatPhoneCanonical(n: string)
    requires National(n)
    ensures FormatPhone(n) == "+94" + n
    ensures FormatPhone("0" + n) == "+94" + n
    ensures FormatPhone("94" + n) == "+94" + n
    ensures FormatPhone("+94" + n) == "+94" + n
  {
    FormatNational(n);
    FormatTrunk(n);
    FormatCountryCode(n);
    FormatInternational(n);
  }
}
