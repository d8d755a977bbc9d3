/** The calls made by the demonstration block at the end of utils.js
    (lines 167-183), and further sample URLs, addresses and numbers: lemmas
    about the results of the checks that are functions, and a method that
    calls the `isPrime` method. Printing is not modelled. */
module UsageExamples {
  import opened JsRuntime
  import opened Wrappers
  import opened TypeChecks
  import opened Errors
  import opened StringChecks
  import opened CollectionChecks
  import opened NumberChecks
  import opened Primality

  /** `isBoolean(1)` and `isBoolean(true)`. */
  lemma BooleanExamples()
    ensures !IsBoolean(Num(Finite(1.0)))
    ensures IsBoolean(Bool(true))
  {
  }

  /** `isOdd` and `isEven` on 1, 2, 3 and 4. */
  lemma ParityExamples()
    ensures IsOdd(Num(Finite(1.0))) == Ok(true) && IsOdd(Num(Finite(2.0))) == Ok(false)
    ensures IsOdd(Num(Finite(3.0))) == Ok(true) && IsOdd(Num(Finite(4.0))) == Ok(false)
    ensures IsEven(Num(Finite(1.0))) == Ok(false) && IsEven(Num(Finite(2.0))) == Ok(true)
    ensures IsEven(Num(Finite(3.0))) == Ok(false) && IsEven(Num(Finite(4.0))) == Ok(true)
  {
    EvenOnIntegers(1);
    EvenOnIntegers(2);
    EvenOnIntegers(3);
    EvenOnIntegers(4);
  }

  /** `isEmptyArray([])` and `isEmptyArray([1, 2, 3])`. */
  lemma EmptyArrayExamples()
    ensures IsEmptyArray(Array([])) == Ok(true)
    ensures IsEmptyArray(Array([Num(Finite(1.0)), Num(Finite(2.0)), Num(Finite(3.0))])) == Ok(false)
  {
  }

  /** The text of the message `isEmptyArray('string')` carries. */
  lemma EmptyArrayStringMessage()
    ensures MessagePrefix("isEmptyArray", "an array") + "string"
         == "isEmptyArray(): expected an array, but received string"
  {
  }

  /** `isEmptyArray('string')` throws an error naming `isEmptyArray`,
      expecting an array, holding the string, and reporting a string. */
  lemma EmptyArrayRejectsString()
    ensures IsEmptyArray(Str("string")).Err?
    ensures var e := IsEmptyArray(Str("string")).error;
      e.name == "InvalidArgumentError" && e.functionName == "isEmptyArray" &&
      e.expected == "an array" && e.received == Str("string") &&
      e.message == "isEmptyArray(): expected an array, but received string"
  {
    var e := NewInvalidArgumentError("isEmptyArray", "an array", Str("string"));
    assert IsEmptyArray(Str("string")).error == e;
    assert e.message == MessagePrefix("isEmptyArray", "an array") + "string";
    EmptyArrayStringMessage();
  }

  /** `isURL('https://example.com')` holds. */
  lemma UrlAcceptsHttps()
    ensures IsURL(Str("https://example.com")) == Ok(true)
  {
    var s := "https://example.com";
    assert HasScheme(s, "https");
    var t := s[8..];
    assert t == "example.com";
    forall k | 0 <= k < |t| ensures !IsWhitespace(t[k]) {
      assert t[k] in "example.com";
    }
  }

  /** `isURL('ftp://files.example.com/file.txt')` holds. */
  lemma UrlAcceptsFtp()
    ensures IsURL(Str("ftp://files.example.com/file.txt")) == Ok(true)
  {
    var s := "ftp://files.example.com/file.txt";
    assert HasScheme(s, "ftp");
    var a, b := "files.example", ".com/file.txt";
    assert s[6..] == a + b;
    forall k | 0 <= k < |a| ensures !IsWhitespace(a[k]) {
      assert a[k] in "files.example";
    }
    forall k | 0 <= k < |b| ensures !IsWhitespace(b[k]) {
      assert b[k] in ".com/file.txt";
    }
    ConcatNoWhitespace(a, b);
  }

  /** `isURL('not-a-url')` does not hold. */
  lemma UrlRejectsPlainWord()
    ensures IsURL(Str("not-a-url")) == Ok(false)
  {
    var s := "not-a-url";
    assert !HasScheme(s, "ftp") by { assert s[..6][0] != ("ftp" + "://")[0]; }
    assert !HasScheme(s, "http") by { assert s[..7][0] != ("http" + "://")[0]; }
    assert !HasScheme(s, "https") by { assert s[..8][0] != ("https" + "://")[0]; }
    assert !UrlShape(s);
  }

  /** A URL needs something after the scheme, and no blank inside it. */
  lemma UrlRejectsEmptyOrBlankHost()
    ensures IsURL(Str("http://")) == Ok(false)
    ensures IsURL(Str("http://a b")) == Ok(false)
  {
    var s := "http://a b";
    assert !HasScheme(s, "ftp") by { assert s[..6][0] != ("ftp" + "://")[0]; }
    assert !HasScheme(s, "https") by { assert s[..8][4] != ("https" + "://")[4]; }
    assert IsWhitespace(s[7..][1]);
    assert !UrlShape(s);
    var u := "http://";
    assert !HasScheme(u, "ftp") by { assert u[..6][0] != ("ftp" + "://")[0]; }
    assert !UrlShape(u);
  }

  /** "user", "example" and "com" are runs of `[^\s@]+`. */
  lemma AddressAtoms()
    ensures EmailAtom("user") && EmailAtom("example") && EmailAtom("com")
  {
    var a, b, c := "user", "example", "com";
    forall k | 0 <= k < |a| ensures !IsWhitespace(a[k]) && a[k] != '@' {
      assert a[k] in "user";
    }
    forall k | 0 <= k < |b| ensures !IsWhitespace(b[k]) && b[k] != '@' {
      assert b[k] in "example";
    }
    forall k | 0 <= k < |c| ensures !IsWhitespace(c[k]) && c[k] != '@' {
      assert c[k] in "com";
    }
  }

  /** The email pattern accepts "user@example.com". */
  lemma AddressMatches()
    ensures EmailRegexMatches("user@example.com")
  {
    var s := "user@example.com";
    AddressAtoms();
    assert s[..4] == "user" && s[5..12] == "example" && s[13..] == "com";
    assert s[4] == '@' && s[12] == '.';
  }

  /** An ordinary address is an email, whether primitive or boxed. */
  lemma EmailAcceptsAddress()
    ensures IsEmail(Str("user@example.com")) == Ok(true)
    ensures IsEmail(BoxedStr("user@example.com")) == Ok(true)
  {
    AddressMatches();
    EmailCharacterisation("user@example.com");
  }

  /** Without a dot after the `@` there is no email. */
  lemma EmailNeedsDot()
    ensures IsEmail(Str("user@example")) == Ok(false)
  {
    var s := "user@example";
    forall j | 0 <= j < |s| ensures s[j] != '.' {
      assert s[j] in "user@example";
    }
    EmailCharacterisation(s);
  }

  /** A blank anywhere rules an email out. */
  lemma EmailRejectsBlank()
    ensures IsEmail(Str("user name@example.com")) == Ok(false)
  {
    assert IsWhitespace("user name@example.com"[4]);
  }

  /** A second `@` rules an email out. */
  lemma EmailRejectsSecondAt()
    ensures IsEmail(Str("a@b@c.d")) == Ok(false)
  {
    var w, a, b := "a@b@c.d", "a@", "b@c.d";
    assert w == a + b;
    assert a[1] == '@' && b[1] == '@';
    CountAppend(a, b, '@');
    assert Count(w, '@') >= 2;
    assert !EmailShape(w);
  }

  /** `isPrime` on 2, 3 and 7; on 1, 9 (a square the loop's last candidate
      catches) and -5; on the non-integer 2.5 and the string "7", which are
      answered `false` without an error. */
  method PrimeExamples() returns (results: seq<bool>)
    ensures results == [true, true, true, false, false, false, false, false]
  {
    var p2 := IsPrime(Num(Finite(2.0)));
    var p3 := IsPrime(Num(Finite(3.0)));
    var p7 := IsPrime(Num(Finite(7.0)));
    var p1 := IsPrime(Num(Finite(1.0)));
    var p9 := IsPrime(Num(Finite(9.0)));
    assert 9 % 3 == 0;
    var m5 := IsPrime(Num(Finite(-5.0)));
    var half := IsPrime(Num(Finite(2.5)));
    assert !IsWhole(2.5) by { assert 2.5.Floor == 2; }
    var text := IsPrime(Str("7"));
    results := [p2, p3, p7, p1, p9, m5, half, text];
  }
}
