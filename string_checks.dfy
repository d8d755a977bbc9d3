/** The string checks of utils.js (lines 70-91): `isEmptyString`, `isEmail`
    and `isURL`. The two regular expressions are written down as the sets
    of strings they accept (a split of the string into the pieces the
    pattern's groups match), and each is proved equal to a plain structural
    description of the accepted strings. */
module StringChecks {
  import opened JsRuntime
  import opened Wrappers
  import opened TypeChecks
  import opened Errors

  /** `isEmptyString`: a string argument is required; the result says
      whether it has no characters. */
  function IsEmptyString(v: Value): (r: Result<bool, InvalidArgumentError>)
    ensures r.Err? <==> !IsString(v)
    ensures r.Err? ==> r.error == NewInvalidArgumentError("isEmptyString", "a string", v)
    ensures r == Ok(true) <==> v == Str("") || v == BoxedStr("")
  {
    if !IsString(v) then Err(NewInvalidArgumentError("isEmptyString", "a string", v))
    else Ok(|v.s| == 0)
  }

  // ---------------------------------------------------------------------
  // Counting and finding characters

  /** The number of occurrences of `c` in `s`. */
  function Count(s: string, c: char): (n: nat)
    ensures n <= |s|
    ensures n == 0 <==> c !in s
  {
    if s == [] then 0 else (if s[0] == c then 1 else 0) + Count(s[1..], c)
  }

  /** The first position of `c` in `s`. */
  function IndexOf(s: string, c: char): (i: nat)
    requires c in s
    ensures i < |s| && s[i] == c && c !in s[..i]
  {
    if s[0] == c then 0 else 1 + IndexOf(s[1..], c)
  }

  lemma {:induction false} CountAppend(a: string, b: string, c: char)
    ensures Count(a + b, c) == Count(a, c) + Count(b, c)
  {
    if a == [] {
      assert a + b == b;
    } else {
      assert (a + b)[1..] == a[1..] + b;
      CountAppend(a[1..], b, c);
    }
  }

  /** A string with one occurrence of `c` has it at one position only. */
  lemma {:induction false} CountOnePosition(s: string, c: char, i: nat, k: nat)
    requires Count(s, c) == 1 && i < |s| && k < |s| && s[i] == c && s[k] == c
    ensures i == k
  {
    var hi := if i < k then k else i;
    assert s == s[..hi] + s[hi..];
    CountAppend(s[..hi], s[hi..], c);
    assert s[hi..][0] == c;
  }

  /** Every character of `a + b` comes from `a` or from `b`. */
  lemma ConcatNoWhitespace(a: string, b: string)
    requires NoWhitespace(a) && NoWhitespace(b)
    ensures NoWhitespace(a + b)
  {
    forall m | 0 <= m < |a + b| ensures !IsWhitespace((a + b)[m]) {
      if m >= |a| {
        assert (a + b)[m] == b[m - |a|];
      }
    }
  }

  // ---------------------------------------------------------------------
  // isEmail: three runs of `[^\s@]+`, joined by `@` and then by `.`

  /** `[^\s@]+`: one or more characters, none blank and none `@`. */
  predicate EmailAtom(t: string) {
    |t| > 0 && forall k :: 0 <= k < |t| ==> !IsWhitespace(t[k]) && t[k] != '@'
  }

  /** The strings the email pattern accepts: an atom, `@`, an atom, `.`
      and an atom, with nothing before or after. */
  predicate EmailRegexMatches(s: string) {
    exists i, j :: 0 < i && i + 1 < j && j + 1 < |s| && s[i] == '@' && s[j] == '.' &&
      EmailAtom(s[..i]) && EmailAtom(s[i + 1..j]) && EmailAtom(s[j + 1..])
  }

  /** `t` contains a `.` that is neither its first nor its last character. */
  predicate HasInnerDot(t: string) {
    exists k :: 0 < k < |t| - 1 && t[k] == '.'
  }

  /** The accepted emails described directly: no blank character, exactly
      one `@`, something before it, and after it a `.` that is neither the
      first nor the last character. */
  predicate EmailShape(s: string) {
    NoWhitespace(s) && Count(s, '@') == 1 &&
    var i := IndexOf(s, '@'); i > 0 && HasInnerDot(s[i + 1..])
  }

  /** `[^\s@]+` admits exactly the non-empty strings with no blank and no `@`. */
  lemma EmailAtomChars(t: string)
    ensures EmailAtom(t) <==> |t| > 0 && NoWhitespace(t) && '@' !in t
  {
  }

  lemma {:induction false} EmailRegexGivesShape(s: string, i: nat, j: nat)
    requires 0 < i && i + 1 < j && j + 1 < |s| && s[i] == '@' && s[j] == '.'
    requires EmailAtom(s[..i]) && EmailAtom(s[i + 1..j]) && EmailAtom(s[j + 1..])
    ensures EmailShape(s)
  {
    var a, mid, c := s[..i], s[i + 1..j], s[j + 1..];
    EmailAtomChars(a);
    EmailAtomChars(mid);
    EmailAtomChars(c);
    var b := s[i + 1..];
    assert s == a + [s[i]] + b;
    assert b == mid + [s[j]] + c;
    CountAppend(a + [s[i]], b, '@');
    CountAppend(a, [s[i]], '@');
    CountAppend(mid + [s[j]], c, '@');
    CountAppend(mid, [s[j]], '@');
    assert Count(s, '@') == 1;
    var x := IndexOf(s, '@');
    CountOnePosition(s, '@', x, i);
    assert b[j - i - 1] == '.';
    assert NoWhitespace([s[i]]) && NoWhitespace([s[j]]);
    ConcatNoWhitespace(a, [s[i]]);
    ConcatNoWhitespace(mid, [s[j]]);
    ConcatNoWhitespace(mid + [s[j]], c);
    ConcatNoWhitespace(a + [s[i]], b);
  }

  lemma {:induction false} EmailShapeGivesRegex(s: string)
    requires EmailShape(s)
    ensures EmailRegexMatches(s)
  {
    var i := IndexOf(s, '@');
    var b := s[i + 1..];
    var k :| 0 < k < |b| - 1 && b[k] == '.';
    var j := i + 1 + k;
    assert s[j] == '.';
    forall m | 0 <= m < |s| && m != i ensures s[m] != '@' {
      if s[m] == '@' {
        CountOnePosition(s, '@', m, i);
      }
    }
    var a, mid, c := s[..i], s[i + 1..j], s[j + 1..];
    forall m | 0 <= m < |a| ensures !IsWhitespace(a[m]) && a[m] != '@' {
      assert a[m] == s[m];
    }
    forall m | 0 <= m < |mid| ensures !IsWhitespace(mid[m]) && mid[m] != '@' {
      assert mid[m] == s[i + 1 + m];
    }
    forall m | 0 <= m < |c| ensures !IsWhitespace(c[m]) && c[m] != '@' {
      assert c[m] == s[j + 1 + m];
    }
    assert EmailAtom(a) && EmailAtom(mid) && EmailAtom(c);
  }

  /** The email pattern accepts exactly the strings of the structural description. */
  lemma {:induction false} EmailCharacterisation(s: string)
    ensures EmailRegexMatches(s) <==> EmailShape(s)
  {
    if EmailRegexMatches(s) {
      var i, j :| 0 < i && i + 1 < j && j + 1 < |s| && s[i] == '@' && s[j] == '.' &&
        EmailAtom(s[..i]) && EmailAtom(s[i + 1..j]) && EmailAtom(s[j + 1..]);
      EmailRegexGivesShape(s, i, j);
    }
    if EmailShape(s) {
      EmailShapeGivesRegex(s);
    }
  }

  /** `isEmail`: a string argument is required; the result is whether the
      email pattern accepts it, which is exactly the structural description. */
  function IsEmail(v: Value): (r: Result<bool, InvalidArgumentError>)
    ensures r.Err? <==> !IsString(v)
    ensures r.Err? ==> r.error == NewInvalidArgumentError("isEmail", "a string", v)
    ensures r.Ok? ==> (r.value <==> EmailShape(v.s))
  {
    if !IsString(v) then Err(NewInvalidArgumentError("isEmail", "a string", v))
    else
      EmailCharacterisation(v.s);
      Ok(EmailRegexMatches(v.s))
  }

  // ---------------------------------------------------------------------
  // isURL: a scheme, `://`, optional user info, a host run of `\S+`, an
  // optional port and an optional one-character path

  /** Every character of `t` is in `\w`. */
  predicate AllWord(t: string) {
    forall k :: 0 <= k < |t| ==> IsWordChar(t[k])
  }

  /** `\w+:{0,1}\w*@`: word characters, at most one colon after the first
      of them, more word characters, then `@`. */
  predicate UserInfo(u: string) {
    |u| >= 2 && u[|u| - 1] == '@' &&
    exists m :: 0 < m < |u| && AllWord(u[..m]) &&
      (AllWord(u[m..|u| - 1]) || (u[m] == ':' && AllWord(u[m + 1..|u| - 1])))
  }

  /** `(\w+:{0,1}\w*@)?` */
  predicate UserInfoOpt(u: string) {
    u == [] || UserInfo(u)
  }

  /** One or more characters, none of them blank. */
  predicate NonBlank(t: string) {
    |t| > 0 && NoWhitespace(t)
  }

  /** `(\S+)`: one or more characters, none of them blank. */
  predicate HostPart(h: string) {
    NonBlank(h)
  }

  /** `(:[0-9]+)?` */
  predicate PortOpt(p: string) {
    p == [] || (|p| >= 2 && p[0] == ':' && forall k :: 1 <= k < |p| ==> IsDigit(p[k]))
  }

  /** The class `[\w#!:.?+=&%@!\-\/]`. */
  predicate IsPathChar(c: char) {
    IsWordChar(c) || c in "#!:.?+=&%@-/"
  }

  /** `(\/|\/([\w#!:.?+=&%@!\-\/]))?`: nothing, a slash, or a slash and
      one character of the path class. */
  predicate PathOpt(q: string) {
    q == [] || q == "/" || (|q| == 2 && q[0] == '/' && IsPathChar(q[1]))
  }

  /** What the pattern accepts after `://`: the four optional or required
      groups, one after another, up to the end of the string. */
  predicate UrlTailMatches(t: string) {
    exists i, j, k :: 0 <= i <= j <= k <= |t| && UserInfoOpt(t[..i]) &&
      HostPart(t[i..j]) && PortOpt(t[j..k]) && PathOpt(t[k..])
  }

  /** `s` begins with the scheme `sc` followed by `://`. */
  predicate HasScheme(s: string, sc: string) {
    |sc| + 3 <= |s| && s[..|sc| + 3] == sc + "://"
  }

  /** The strings the URL pattern accepts. */
  predicate UrlRegexMatches(s: string) {
    (HasScheme(s, "ftp") && UrlTailMatches(s[6..])) ||
    (HasScheme(s, "http") && UrlTailMatches(s[7..])) ||
    (HasScheme(s, "https") && UrlTailMatches(s[8..]))
  }

  /** The accepted URLs described directly: `ftp://`, `http://` or
      `https://` followed by one or more non-blank characters. */
  predicate UrlShape(s: string) {
    (HasScheme(s, "ftp") && NonBlank(s[6..])) ||
    (HasScheme(s, "http") && NonBlank(s[7..])) ||
    (HasScheme(s, "https") && NonBlank(s[8..]))
  }

  lemma {:induction false} UserInfoNoWhitespace(u: string)
    requires UserInfoOpt(u)
    ensures NoWhitespace(u)
  {
    if u != [] {
      var m :| 0 < m < |u| && AllWord(u[..m]) &&
        (AllWord(u[m..|u| - 1]) || (u[m] == ':' && AllWord(u[m + 1..|u| - 1])));
      forall x | 0 <= x < |u| ensures !IsWhitespace(u[x]) {
        if x < m {
          assert u[x] == u[..m][x];
        } else if x < |u| - 1 {
          if AllWord(u[m..|u| - 1]) {
            assert u[x] == u[m..|u| - 1][x - m];
          } else if x > m {
            assert u[x] == u[m + 1..|u| - 1][x - m - 1];
          }
        }
      }
    }
  }

  lemma {:induction false} UrlTailGivesNonBlank(t: string, i: nat, j: nat, k: nat)
    requires 0 <= i <= j <= k <= |t| && UserInfoOpt(t[..i])
    requires HostPart(t[i..j]) && PortOpt(t[j..k]) && PathOpt(t[k..])
    ensures NonBlank(t)
  {
    var u, h, p, q := t[..i], t[i..j], t[j..k], t[k..];
    UserInfoNoWhitespace(u);
    assert NoWhitespace(p) by {
      forall m | 0 <= m < |p| ensures !IsWhitespace(p[m]) {
        assert m == 0 || IsDigit(p[m]);
      }
    }
    assert NoWhitespace(q) by {
      forall m | 0 <= m < |q| ensures !IsWhitespace(q[m]) {
        assert m == 0 || IsPathChar(q[m]);
      }
    }
    assert t == u + h + p + q;
    ConcatNoWhitespace(u, h);
    ConcatNoWhitespace(u + h, p);
    ConcatNoWhitespace(u + h + p, q);
  }

  /** The optional groups of the URL pattern can only add non-blank
      characters, and `(\S+)` can absorb all of them: the tail the pattern
      accepts is any non-empty run of non-blank characters. */
  lemma {:induction false} UrlTailCharacterisation(t: string)
    ensures UrlTailMatches(t) <==> NonBlank(t)
  {
    if UrlTailMatches(t) {
      var i, j, k :| 0 <= i <= j <= k <= |t| && UserInfoOpt(t[..i]) &&
        HostPart(t[i..j]) && PortOpt(t[j..k]) && PathOpt(t[k..]);
      UrlTailGivesNonBlank(t, i, j, k);
    }
    if NonBlank(t) {
      assert t[..0] == [] && t[0..|t|] == t && t[|t|..|t|] == [] && t[|t|..] == [];
      assert UrlTailMatches(t);
    }
  }

  lemma {:induction false} UrlCharacterisation(s: string)
    ensures UrlRegexMatches(s) <==> UrlShape(s)
  {
    if HasScheme(s, "ftp") { UrlTailCharacterisation(s[6..]); }
    if HasScheme(s, "http") { UrlTailCharacterisation(s[7..]); }
    if HasScheme(s, "https") { UrlTailCharacterisation(s[8..]); }
  }

  /** `isURL`: a string argument is required; the result is whether the
      URL pattern accepts it, which is exactly the structural description. */
  function IsURL(v: Value): (r: Result<bool, InvalidArgumentError>)
    ensures r.Err? <==> !IsString(v)
    ensures r.Err? ==> r.error == NewInvalidArgumentError("isURL", "a string", v)
    ensures r.Ok? ==> (r.value <==> UrlShape(v.s))
  {
    if !IsString(v) then Err(NewInvalidArgumentError("isURL", "a string", v))
    else
      UrlCharacterisation(v.s);
      Ok(UrlRegexMatches(v.s))
  }
}
