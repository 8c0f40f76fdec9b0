/**
 The two probe-path scanners, one in the Go SDK and one in campd, against the
 grammar they stand for: the origin-form of section 3.2.1 of RFC 9112 over the
 path and query rules of sections 3.3 and 3.4 of RFC 3986. A `char` is a byte.
 */
module OriginForm {

  // ------------------------------------------------------------- the grammar

  predicate IsAlphanumeric(c: char) {
    'A' <= c <= 'Z' || 'a' <= c <= 'z' || '0' <= c <= '9'
  }

  predicate IsHex(c: char) {
    '0' <= c <= '9' || 'A' <= c <= 'F' || 'a' <= c <= 'f'
  }

  predicate IsUnreserved(c: char) {
    IsAlphanumeric(c) || c in "-._~"
  }

  predicate IsSubDelim(c: char) {
    c in "!$&'()*+,;="
  }

  /** One-character `pchar`s, and the further characters a rule may admit. */
  predicate Admits(c: char, extra: string) {
    IsUnreserved(c) || IsSubDelim(c) || c == ':' || c == '@' || c in extra
  }

  /** A string of `pchar`s, percent-encoded ones included, and `extra` characters. */
  predicate Chars(s: string, extra: string) {
    s == ""
    || (s[0] == '%' && |s| >= 3 && IsHex(s[1]) && IsHex(s[2]) && Chars(s[3..], extra))
    || (s[0] != '%' && Admits(s[0], extra) && Chars(s[1..], extra))
  }

  /** `absolute-path = 1*( "/" segment )`, `segment = *pchar`. */
  ghost predicate AbsolutePath(s: string)
    decreases |s|
  {
    s != "" && s[0] == '/'
    && exists k :: 1 <= k <= |s| && Chars(s[1..k], "") && (k == |s| || AbsolutePath(s[k..]))
  }

  /** `query = *( pchar / "/" / "?" )`. */
  predicate Query(s: string) {
    Chars(s, "/?")
  }

  /** `origin-form = absolute-path [ "?" query ]`. */
  ghost predicate IsOriginForm(s: string) {
    exists k :: 0 <= k <= |s| && AbsolutePath(s[..k])
                && (k == |s| || (s[k] == '?' && Query(s[k + 1..])))
  }

  // ------------------------------------------------------------ the scanners

  predicate Scans(s: string) {
    s != "" && s[0] == '/' && Chars(s, "/?")
  }

  /** campd's `valid_http_origin_form`. */
  method CampdScan(value: string) returns (ok: bool)
    ensures ok <==> IsOriginForm(value)
  {
    ScansIsOriginForm(value);
    if value == "" || value[0] != '/' {
      return false;
    }
    var index := 0;
    while index < |value|
      invariant 0 <= index <= |value|
      invariant Chars(value, "/?") <==> Chars(value[index..], "/?")
    {
      var rest := value[index..];
      if value[index] == '%' {
        if index + 2 >= |value| || !IsHex(value[index + 1]) || !IsHex(value[index + 2]) {
          return false;
        }
        assert rest[3..] == value[index + 3..];
        index := index + 3;
        continue;
      }
      if !(IsAlphanumeric(value[index]) || value[index] in "-._~!$&'()*+,;=:@/?") {
        return false;
      }
      assert rest[1..] == value[index + 1..];
      index := index + 1;
    }
    return true;
  }

  /** The Go SDK's `validHTTPOriginForm`, whose loop always steps by one more. */
  method GoScan(value: string) returns (ok: bool)
    ensures ok <==> IsOriginForm(value)
  {
    ScansIsOriginForm(value);
    if !("/" <= value) {
      return false;
    }
    var index := 0;
    while index < |value|
      invariant 0 <= index <= |value|
      invariant Chars(value, "/?") <==> Chars(value[index..], "/?")
    {
      var character := value[index];
      var rest := value[index..];
      if character == '%' {
        if index + 2 >= |value| || !IsHex(value[index + 1]) || !IsHex(value[index + 2]) {
          return false;
        }
        assert rest[3..] == value[index + 3..];
        index := index + 2;
      } else {
        if !(IsAlphanumeric(character) || character in "-._~!$&'()*+,;=:@/?") {
          return false;
        }
        assert rest[1..] == value[index + 1..];
      }
      index := index + 1;
    }
    return true;
  }

  // --------------------------------------------------- scanner against grammar

  lemma {:induction false} CharsConcat(a: string, b: string, extra: string)
    requires Chars(a, extra) && Chars(b, extra)
    ensures Chars(a + b, extra)
  {
    if a == "" {
      assert a + b == b;
    } else if a[0] == '%' {
      assert (a + b)[3..] == a[3..] + b;
      CharsConcat(a[3..], b, extra);
    } else {
      assert (a + b)[1..] == a[1..] + b;
      CharsConcat(a[1..], b, extra);
    }
  }

  lemma {:induction false} CharsWiden(s: string, extra: string, wider: string)
    requires Chars(s, extra) && forall c :: c in extra ==> c in wider
    ensures Chars(s, wider)
  {
    if s != "" {
      CharsWiden(if s[0] == '%' then s[3..] else s[1..], extra, wider);
    }
  }

  /** Characters of the wider rule split at the first one the narrower refuses. */
  lemma {:induction false} CharsSplit(s: string, extra: string, stop: char) returns (k: nat)
    requires stop != '%' && !Admits(stop, extra) && Chars(s, extra + [stop])
    ensures k <= |s| && Chars(s[..k], extra)
    ensures k < |s| ==> s[k] == stop && Chars(s[k + 1..], extra + [stop])
  {
    if s == "" {
      return 0;
    }
    if s[0] == stop {
      return 0;
    }
    var step := if s[0] == '%' then 3 else 1;
    k := CharsSplit(s[step..], extra, stop);
    assert s[..step + k][step..] == s[step..][..k];
    if k < |s[step..]| {
      assert s[step + k + 1..] == s[step..][k + 1..];
    }
    k := step + k;
  }

  lemma {:induction false} PathFromChars(s: string)
    requires s != "" && s[0] == '/' && Chars(s, "/")
    ensures AbsolutePath(s)
    decreases |s|
  {
    assert Chars(s[1..], "" + ['/']) by { assert "" + ['/'] == "/"; }
    var k := CharsSplit(s[1..], "", '/');
    assert s[1..k + 1] == s[1..][..k];
    if k + 1 < |s| {
      var rest := s[k + 1..];
      assert rest[0] == '/' && rest[1..] == s[1..][k + 1..];
      assert "" + ['/'] == "/";
      assert Chars(rest, "/");
      PathFromChars(rest);
    }
  }

  lemma {:induction false} CharsFromPath(s: string)
    requires AbsolutePath(s)
    ensures s != "" && s[0] == '/' && Chars(s, "/")
    decreases |s|
  {
    var k :| 1 <= k <= |s| && Chars(s[1..k], "") && (k == |s| || AbsolutePath(s[k..]));
    CharsWiden(s[1..k], "", "/");
    if k < |s| {
      CharsFromPath(s[k..]);
      CharsConcat(s[1..k], s[k..], "/");
      assert s[1..] == s[1..k] + s[k..];
    } else {
      assert s[1..] == s[1..k];
    }
  }

  lemma ScansGivesOriginForm(s: string)
    requires Scans(s)
    ensures IsOriginForm(s)
  {
    assert "/" + ['?'] == "/?";
    var k := CharsSplit(s, "/", '?');
    assert k > 0;
    PathFromChars(s[..k]);
    assert AbsolutePath(s[..k]) && (k == |s| || (s[k] == '?' && Query(s[k + 1..])));
  }

  lemma OriginFormGivesScans(s: string)
    requires IsOriginForm(s)
    ensures Scans(s)
  {
    var k :| 0 <= k <= |s| && AbsolutePath(s[..k]) && (k == |s| || (s[k] == '?' && Query(s[k + 1..])));
    CharsFromPath(s[..k]);
    CharsWiden(s[..k], "/", "/?");
    if k < |s| {
      assert Chars("?", "/?");
      CharsConcat("?", s[k + 1..], "/?");
      CharsConcat(s[..k], "?" + s[k + 1..], "/?");
      assert s == s[..k] + ("?" + s[k + 1..]);
    } else {
      assert s == s[..k];
    }
  }

  /** What the scanners accept is exactly the origin-form. */
  lemma ScansIsOriginForm(s: string)
    ensures Scans(s) <==> IsOriginForm(s)
  {
    hide Scans, IsOriginForm;
    if Scans(s) {
      ScansGivesOriginForm(s);
    }
    if IsOriginForm(s) {
      OriginFormGivesScans(s);
    }
  }
}
