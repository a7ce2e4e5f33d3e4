/**
 * The part of Python's `urllib.parse` that reading `urlparse(link).port`
 * goes through, as current CPython has it: `urlsplit` cleans the URL (it
 * strips leading control characters and spaces and removes every tab, line
 * feed and carriage return), removes a leading `scheme:`, takes the
 * authority ("netloc") that follows `//` and rejects misplaced brackets in
 * it; the `_hostinfo` property picks the text after the host's `:`, and
 * `port` turns that text into a number or raises `ValueError`. The rest of
 * the URL grammar is not modelled.
 */
module UrlParse {
  import opened Wrappers
  import opened Strings

  const MaxPort := 65535

  const InvalidIPv6Message := "Invalid IPv6 URL"
  const OutOfRangeMessage := "Port out of range 0-65535"

  function NotIntegerMessage(text: string): string {
    "Port could not be cast to integer value as '" + text + "'"
  }

  predicate IsAsciiLetter(c: char) { 'a' <= c <= 'z' || 'A' <= c <= 'Z' }

  predicate IsAsciiDigit(c: char) { '0' <= c <= '9' }

  /** The characters `urlsplit` accepts in a scheme. */
  predicate IsSchemeChar(c: char) {
    IsAsciiLetter(c) || IsAsciiDigit(c) || c == '+' || c == '-' || c == '.'
  }

  /** A non-empty run of scheme characters that starts with an ASCII letter. */
  predicate IsScheme(s: string) {
    |s| > 0 && IsAsciiLetter(s[0]) && forall k :: 0 <= k < |s| ==> IsSchemeChar(s[k])
  }

  /** `str.isdigit() and str.isascii()`, which the port text must satisfy. */
  predicate IsDigits(s: string) {
    |s| > 0 && forall k :: 0 <= k < |s| ==> IsAsciiDigit(s[k])
  }

  /** A C0 control character or a space: what `urlsplit` strips from the front of a URL. */
  predicate IsControlOrSpace(c: char) { c <= ' ' }

  /** Tab, line feed and carriage return: what `urlsplit` removes wherever they are. */
  predicate IsUnsafe(c: char) { c == '\t' || c == '\n' || c == '\r' }

  predicate IsClean(s: string) {
    forall k :: 0 <= k < |s| ==> !IsUnsafe(s[k])
  }

  /** `s.lstrip(_WHATWG_C0_CONTROL_OR_SPACE)`. */
  function LStripControl(s: string): (r: string)
    ensures |r| <= |s| && r == s[|s| - |r|..]
    ensures r == [] || !IsControlOrSpace(r[0])
    ensures forall k :: 0 <= k < |s| - |r| ==> IsControlOrSpace(s[k])
  {
    if s != [] && IsControlOrSpace(s[0]) then LStripControl(s[1..]) else s
  }

  lemma LStripKeeps(s: string)
    requires s != [] && !IsControlOrSpace(s[0])
    ensures LStripControl(s) == s
  {
  }

  /** Every tab, line feed and carriage return removed, the other characters kept in order. */
  function RemoveUnsafe(s: string): (r: string)
    ensures IsClean(r)
    ensures IsClean(s) ==> r == s
  {
    if s == [] then []
    else
      assert s == [s[0]] + s[1..];
      (if IsUnsafe(s[0]) then [] else [s[0]]) + RemoveUnsafe(s[1..])
  }

  /** The URL as `urlsplit` goes on to read it. */
  function Sanitize(url: string): (r: string)
    ensures IsClean(r)
  {
    RemoveUnsafe(LStripControl(url))
  }

  /** Where the authority ends: the first of these after `//`. */
  const AuthorityEnd: set<char> := {'/', '?', '#'}

  /** What is left after the text before the first `:` is removed, when that text is a scheme. */
  function AfterScheme(url: string): (rest: string)
    ensures rest != url ==>
              && |rest| < |url|
              && url == url[..|url| - |rest| - 1] + ":" + rest
              && IsScheme(url[..|url| - |rest| - 1])
  {
    var p := Partition(url, ':');
    if p.found && IsScheme(p.head) then p.tail else url
  }

  /** The `netloc` `urlsplit` takes from a cleaned URL: empty unless `//` follows the scheme. */
  function SplitNetloc(url: string): (n: string)
    ensures forall k :: 0 <= k < |n| ==> n[k] !in AuthorityEnd
  {
    var rest := AfterScheme(url);
    if StartsWith(rest, "//") then
      var authority := rest[2..];
      authority[..FirstIndexOf(authority, AuthorityEnd)]
    else ""
  }

  /** The `netloc` of `urlsplit(url)`. */
  function Netloc(url: string): (n: string)
    ensures forall k :: 0 <= k < |n| ==> n[k] !in AuthorityEnd
  {
    SplitNetloc(Sanitize(url))
  }

  /** The host-and-port part of an authority: everything after its last `@`. */
  function HostInfo(netloc: string): string {
    RPartition(netloc, '@').tail
  }

  /** The port part of `_hostinfo`, with `""` standing for "no port". */
  function PortText(netloc: string): (t: string)
    ensures |t| <= |netloc|
    ensures t != [] ==> ':' in netloc
  {
    var hostinfo := HostInfo(netloc);
    var bracket := Partition(hostinfo, '[');
    if bracket.found then Partition(Partition(bracket.tail, ']').tail, ':').tail
    else Partition(hostinfo, ':').tail
  }

  /**
   * The placement rules of `_check_bracketed_netloc`: in the host part, no
   * text before `[`, and after `]` nothing or a `:` and the port.
   */
  predicate BracketsPlaced(netloc: string) {
    var bracket := Partition(HostInfo(netloc), '[');
    var after := Partition(bracket.tail, ']').tail;
    !bracket.found || (bracket.head == [] && (after == [] || after[0] == ':'))
  }

  /** The value of a run of decimal digits, as `int` reads it: 0 exactly when every digit is `0`. */
  function DigitsValue(s: string): (n: nat)
    requires forall k :: 0 <= k < |s| ==> IsAsciiDigit(s[k])
    ensures n == 0 <==> forall k :: 0 <= k < |s| ==> s[k] == '0'
  {
    if s == [] then 0
    else
      var init, last := s[..|s| - 1], s[|s| - 1];
      assert IsAsciiDigit(last);
      assert forall k :: 0 <= k < |init| ==> init[k] == s[k];
      DigitsValue(init) * 10 + (last as int - '0' as int) as nat
  }

  /** The shortest decimal digits of `n`, as `str(n)` writes them. */
  function Digits(n: nat): (s: string)
    ensures IsDigits(s)
    ensures DigitsValue(s) == n
  {
    var last := [('0' as int + n % 10) as char];
    if n < 10 then last
    else
      var s := Digits(n / 10) + last;
      assert s[..|s| - 1] == Digits(n / 10);
      s
  }

  /**
   * `urlparse(url).port`: `Success(None)` when the authority has no port,
   * `Success(Some(p))` for an explicit one, and `Failure` with the message of
   * the `ValueError` that Python raises for an unbalanced or misplaced
   * `[`/`]`, a port that is not made of ASCII digits, or one above 65535.
   */
  function Port(url: string): (r: Result<Option<nat>, string>)
    ensures r.Success? && r.value.Some? ==> r.value.value <= MaxPort && ':' in Netloc(url)
    ensures ':' !in Netloc(url) ==> r.Success? ==> r.value.None?
  {
    PortOfNetloc(Netloc(url))
  }

  /**
   * The port read from a netloc, after the bracket checks `urlsplit` makes
   * on it.
   */
  function PortOfNetloc(netloc: string): (r: Result<Option<nat>, string>)
    ensures r.Success? && r.value.Some? ==> r.value.value <= MaxPort && ':' in netloc
    ensures ':' !in netloc ==> r.Success? ==> r.value.None?
  {
    if ('[' in netloc) != (']' in netloc) then Failure(InvalidIPv6Message)
    else if '[' in netloc && !BracketsPlaced(netloc) then Failure(InvalidIPv6Message)
    else
      var text := PortText(netloc);
      if text == "" then Success(None)
      else if !IsDigits(text) then Failure(NotIntegerMessage(text))
      else if DigitsValue(text) > MaxPort then Failure(OutOfRangeMessage)
      else Success(Some(DigitsValue(text)))
  }

  /** A character that may sit in an authority, does not end it and is not removed by cleaning. */
  predicate IsAuthorityChar(c: char) { c !in AuthorityEnd && !IsUnsafe(c) }

  predicate IsAuthorityText(s: string) {
    forall k :: 0 <= k < |s| ==> IsAuthorityChar(s[k])
  }

  /** Authority text without user info or brackets in it. */
  predicate IsPlainText(s: string) {
    IsAuthorityText(s) && '@' !in s && '[' !in s && ']' !in s
  }

  /** A host name with none of the characters that end, split or bracket an authority. */
  predicate IsPlainHost(host: string) {
    IsPlainText(host) && ':' !in host
  }

  /** A host name made only of letters, digits, `+`, `-` and `.` is plain. */
  lemma HostNameIsPlain(host: string)
    requires forall k :: 0 <= k < |host| ==> IsSchemeChar(host[k])
    ensures IsPlainHost(host)
  {
    forall k | 0 <= k < |host|
      ensures IsAuthorityChar(host[k]) && host[k] !in {'@', '[', ']', ':'}
    {
      assert IsSchemeChar(host[k]);
    }
  }

  /**
   * Cleaning drops a tab, line feed or carriage return wherever it is, so
   * such a character anywhere in a link does not change its port:
   * `http://h:8\t0/` has port 80.
   */
  lemma SanitizeDropsUnsafe(a: string, c: char, b: string)
    requires IsUnsafe(c)
    ensures Sanitize(a + [c] + b) == Sanitize(a + b)
  {
    SanitizeCommutes(a + [c] + b);
    SanitizeCommutes(a + b);
    RemoveUnsafeDrops(a, c, b);
  }

  /**
   * The two cleaning steps can be taken in either order, because tab, line
   * feed and carriage return are themselves control characters.
   */
  lemma {:induction false} SanitizeCommutes(s: string)
    ensures Sanitize(s) == LStripControl(RemoveUnsafe(s))
  {
    if s != [] {
      var rest := RemoveUnsafe(s[1..]);
      if IsControlOrSpace(s[0]) {
        calc {
          Sanitize(s);
          RemoveUnsafe(LStripControl(s[1..]));
          { SanitizeCommutes(s[1..]); }
          LStripControl(rest);
          { LStripDropsControl(s[0], rest); }
          LStripControl((if IsUnsafe(s[0]) then [] else [s[0]]) + rest);
          LStripControl(RemoveUnsafe(s));
        }
      } else {
        calc {
          Sanitize(s);
          RemoveUnsafe(s);
          [s[0]] + rest;
          { LStripKeeps([s[0]] + rest); }
          LStripControl([s[0]] + rest);
          LStripControl(RemoveUnsafe(s));
        }
      }
    }
  }

  lemma LStripDropsControl(c: char, s: string)
    requires IsControlOrSpace(c)
    ensures LStripControl(s) == LStripControl((if IsUnsafe(c) then [] else [c]) + s)
  {
    if !IsUnsafe(c) {
      assert ([c] + s)[1..] == s;
    } else {
      assert [] + s == s;
    }
  }

  lemma RemoveUnsafeDrops(a: string, c: char, b: string)
    requires IsUnsafe(c)
    ensures RemoveUnsafe(a + [c] + b) == RemoveUnsafe(a + b)
  {
    calc {
      RemoveUnsafe(a + [c] + b);
      { assert a + [c] + b == a + ([c] + b); RemoveUnsafeConcat(a, [c] + b); }
      RemoveUnsafe(a) + RemoveUnsafe([c] + b);
      { assert ([c] + b)[0] == c && ([c] + b)[1..] == b; }
      RemoveUnsafe(a) + RemoveUnsafe(b);
      { RemoveUnsafeConcat(a, b); }
      RemoveUnsafe(a + b);
    }
  }

  lemma PortIgnoresUnsafe(a: string, c: char, b: string)
    requires IsUnsafe(c)
    ensures Port(a + [c] + b) == Port(a + b)
  {
    SanitizeDropsUnsafe(a, c, b);
    assert Netloc(a + [c] + b) == Netloc(a + b);
  }

  /** Cleaning distributes over concatenation. */
  lemma {:induction false} RemoveUnsafeConcat(a: string, b: string)
    ensures RemoveUnsafe(a + b) == RemoveUnsafe(a) + RemoveUnsafe(b)
  {
    if a == [] {
      assert a + b == b;
    } else {
      assert (a + b)[0] == a[0] && (a + b)[1..] == a[1..] + b;
      RemoveUnsafeConcat(a[1..], b);
    }
  }

  /**
   * A clean prefix that starts with a visible character comes through
   * cleaning whole; a rest that is empty or starts with `/`, `?` or `#`
   * still does so once cleaned.
   */
  lemma SanitizePrefix(prefix: string, rest: string)
    requires prefix != [] && !IsControlOrSpace(prefix[0]) && IsClean(prefix)
    requires rest == [] || rest[0] in AuthorityEnd
    ensures Sanitize(prefix + rest) == prefix + RemoveUnsafe(rest)
    ensures RemoveUnsafe(rest) == [] || RemoveUnsafe(rest)[0] in AuthorityEnd
  {
    assert (prefix + rest)[0] == prefix[0];
    LStripKeeps(prefix + rest);
    RemoveUnsafeConcat(prefix, rest);
    if rest != [] {
      assert rest == [rest[0]] + rest[1..];
    }
  }

  /** The authority of `scheme://authority rest` when `rest` is empty or starts a path, query or fragment. */
  lemma NetlocOf(scheme: string, authority: string, rest: string)
    requires IsScheme(scheme) && IsAuthorityText(authority)
    requires rest == [] || rest[0] in AuthorityEnd
    ensures Netloc(scheme + "://" + authority + rest) == authority
  {
    var prefix := scheme + "://" + authority;
    SchemeAndAuthority(scheme, authority);
    SanitizePrefix(prefix, rest);
    SplitNetlocOf(scheme, authority, RemoveUnsafe(rest));
  }

  lemma SchemeAndAuthority(scheme: string, authority: string)
    requires IsScheme(scheme) && IsAuthorityText(authority)
    ensures var prefix := scheme + "://" + authority;
            prefix != [] && !IsControlOrSpace(prefix[0]) && IsClean(prefix)
  {
    var prefix := scheme + "://" + authority;
    assert prefix[0] == scheme[0];
    forall k | 0 <= k < |prefix| ensures !IsUnsafe(prefix[k]) {
      if k < |scheme| {
        assert prefix[k] == scheme[k] && IsSchemeChar(scheme[k]);
      } else if k >= |scheme| + 3 {
        assert prefix[k] == authority[k - |scheme| - 3];
      }
    }
  }

  /** On a cleaned URL: the authority runs from `//` to the first `/`, `?` or `#`. */
  lemma SplitNetlocOf(scheme: string, authority: string, rest: string)
    requires IsScheme(scheme) && IsAuthorityText(authority)
    requires rest == [] || rest[0] in AuthorityEnd
    ensures SplitNetloc(scheme + "://" + authority + rest) == authority
  {
    var after := "//" + authority + rest;
    AfterSchemeOf(scheme, after);
    assert scheme + "://" + authority + rest == scheme + ":" + after;
    assert after[2..] == authority + rest;
    FirstIndexOfAt(authority, rest, AuthorityEnd);
    assert (authority + rest)[..|authority|] == authority;
  }

  /** A scheme and its `:` are removed whole. */
  lemma AfterSchemeOf(scheme: string, after: string)
    requires IsScheme(scheme)
    ensures AfterScheme(scheme + ":" + after) == after
  {
    assert ':' !in scheme by {
      forall k | 0 <= k < |scheme| ensures scheme[k] != ':' {
        assert IsSchemeChar(scheme[k]);
      }
    }
    PartitionAt(scheme, ':', after);
  }

  /** Authority text put together from authority text. */
  lemma AuthorityTextConcat(a: string, b: string)
    requires IsAuthorityText(a) && IsAuthorityText(b)
    ensures IsAuthorityText(a + b)
  {
    assert forall k :: |a| <= k < |a| + |b| ==> (a + b)[k] == b[k - |a|];
  }

  /** What the port is read from: user info before the last `@` plays no part. */
  lemma PortTextAfterUserInfo(user: string, hostport: string)
    requires '@' !in hostport
    ensures PortText(user + "@" + hostport) == PortText(hostport)
    ensures BracketsPlaced(user + "@" + hostport) == BracketsPlaced(hostport)
  {
    RPartitionAt(user, '@', hostport);
    RPartitionAbsent(hostport, '@');
  }

  /** The port text of `host:text` is `text`. */
  lemma PortTextPlain(host: string, text: string)
    requires IsPlainHost(host) && '@' !in text && '[' !in text
    ensures PortText(host + ":" + text) == text
  {
    var hostport := host + ":" + text;
    RPartitionAbsent(hostport, '@');
    PartitionAbsent(hostport, '[');
    assert hostport == host + [':'] + text;
    PartitionAt(host, ':', text);
  }

  /** The port text of `[address]:text` is `text`, whatever colons the address holds, and the brackets are well placed. */
  lemma PortTextBracketed(address: string, text: string)
    requires '@' !in address && ']' !in address && '@' !in text
    ensures PortText("[" + address + "]:" + text) == text
    ensures BracketsPlaced("[" + address + "]:" + text)
  {
    var hostport := "[" + address + "]:" + text;
    RPartitionAbsent(hostport, '@');
    assert hostport == [] + ['['] + (address + "]:" + text);
    PartitionAt([], '[', address + "]:" + text);
    assert address + "]:" + text == address + [']'] + (":" + text);
    PartitionAt(address, ']', ":" + text);
    assert ":" + text == [] + [':'] + text;
    PartitionAt([], ':', text);
  }

  /** `scheme://host:text rest` has netloc `host:text`, with the port text `text` and no bracket. */
  lemma PlainAuthority(scheme: string, host: string, text: string, rest: string)
    requires IsScheme(scheme) && IsPlainHost(host) && IsPlainText(text)
    requires rest == [] || rest[0] in AuthorityEnd
    ensures var netloc := Netloc(scheme + "://" + host + ":" + text + rest);
            && netloc == host + ":" + text
            && '[' !in netloc && ']' !in netloc
            && PortText(netloc) == text
  {
    var authority := host + ":" + text;
    AuthorityTextConcat(host, ":");
    AuthorityTextConcat(host + ":", text);
    assert scheme + "://" + host + ":" + text + rest == scheme + "://" + authority + rest;
    NetlocOf(scheme, authority, rest);
    PortTextPlain(host, text);
  }

  /**
   * Round trip: writing a port into a URL and reading it back gives the
   * port. `scheme://host:port` followed by nothing, or by a path, query or
   * fragment, has exactly that port.
   */
  lemma PortOfExplicit(scheme: string, host: string, port: nat, rest: string)
    requires IsScheme(scheme) && IsPlainHost(host) && port <= MaxPort
    requires rest == [] || rest[0] in AuthorityEnd
    ensures Port(scheme + "://" + host + ":" + Digits(port) + rest) == Success(Some(port))
  {
    DigitsArePlain(port);
    PlainAuthority(scheme, host, Digits(port), rest);
  }

  /** A port written above 65535 is rejected with Python's range message. */
  lemma PortOutOfRange(scheme: string, host: string, port: nat, rest: string)
    requires IsScheme(scheme) && IsPlainHost(host) && port > MaxPort
    requires rest == [] || rest[0] in AuthorityEnd
    ensures Port(scheme + "://" + host + ":" + Digits(port) + rest) == Failure(OutOfRangeMessage)
  {
    DigitsArePlain(port);
    PlainAuthority(scheme, host, Digits(port), rest);
  }

  /** A non-empty port text that is not all ASCII digits is rejected, and the message shows that text. */
  lemma PortNotDigits(scheme: string, host: string, text: string, rest: string)
    requires IsScheme(scheme) && IsPlainHost(host) && IsPlainText(text)
    requires text != [] && !IsDigits(text)
    requires rest == [] || rest[0] in AuthorityEnd
    ensures Port(scheme + "://" + host + ":" + text + rest) == Failure(NotIntegerMessage(text))
  {
    PlainAuthority(scheme, host, text, rest);
  }

  lemma DigitsArePlain(n: nat)
    ensures IsPlainText(Digits(n))
  {
    var d := Digits(n);
    assert forall k :: 0 <= k < |d| ==> IsAsciiDigit(d[k]);
  }

  /** Without a `:` after the host, a URL has no explicit port. */
  lemma PortOfImplicit(scheme: string, host: string, rest: string)
    requires IsScheme(scheme) && IsPlainHost(host)
    requires rest == [] || rest[0] in AuthorityEnd
    ensures Port(scheme + "://" + host + rest) == Success(None)
  {
    NetlocOf(scheme, host, rest);
    RPartitionAbsent(host, '@');
    PartitionAbsent(host, '[');
    PartitionAbsent(host, ':');
  }

  /** An authority with a `[` and no `]`, or the reverse, is rejected. */
  lemma UnbalancedBracketRejected(scheme: string, authority: string, rest: string)
    requires IsScheme(scheme) && IsAuthorityText(authority)
    requires ('[' in authority) != (']' in authority)
    requires rest == [] || rest[0] in AuthorityEnd
    ensures Port(scheme + "://" + authority + rest) == Failure(InvalidIPv6Message)
  {
    NetlocOf(scheme, authority, rest);
  }

  /**
   * A bracketed IPv6 host reads its port after `]:`:
   * `scheme://[address]:port` has exactly that port.
   */
  lemma PortOfBracketedHost(scheme: string, address: string, port: nat, rest: string)
    requires IsScheme(scheme) && IsPlainText(address) && port <= MaxPort
    requires rest == [] || rest[0] in AuthorityEnd
    ensures Port(scheme + "://[" + address + "]:" + Digits(port) + rest) == Success(Some(port))
  {
    var authority := "[" + address + "]:" + Digits(port);
    BracketedAuthority(address, Digits(port));
    BracketRegroup(scheme, address, "]:", Digits(port), rest);
    NetlocOf(scheme, authority, rest);
    PortTextBracketed(address, Digits(port));
  }

  lemma BracketedAuthority(address: string, text: string)
    requires IsPlainText(address) && IsPlainText(text)
    ensures var authority := "[" + address + "]:" + text;
            IsAuthorityText(authority) && '[' in authority && ']' in authority
  {
    var authority := "[" + address + "]:" + text;
    assert authority == "[" + (address + ("]:" + text));
    AuthorityTextConcat("]:", text);
    AuthorityTextConcat(address, "]:" + text);
    AuthorityTextConcat("[", address + ("]:" + text));
    assert authority[0] == '[' && authority[|address| + 1] == ']';
  }

  /** Text between `]` and the port's `:` is rejected: `http://[::1]x:8787/` raises. */
  lemma TextAfterBracketRejected(scheme: string, address: string, after: string, rest: string)
    requires IsScheme(scheme) && IsPlainText(address) && IsPlainText(after)
    requires after != [] && after[0] != ':'
    requires rest == [] || rest[0] in AuthorityEnd
    ensures Port(scheme + "://[" + address + "]" + after + rest) == Failure(InvalidIPv6Message)
  {
    var authority := "[" + address + "]" + after;
    TextAfterBracketAuthority(address, after);
    BracketRegroup(scheme, address, "]", after, rest);
    NetlocOf(scheme, authority, rest);
  }

  lemma TextAfterBracketAuthority(address: string, after: string)
    requires IsPlainText(address) && IsPlainText(after) && after != [] && after[0] != ':'
    ensures var authority := "[" + address + "]" + after;
            && IsAuthorityText(authority) && '[' in authority && ']' in authority
            && !BracketsPlaced(authority)
  {
    var authority := "[" + address + "]" + after;
    assert authority == "[" + (address + ("]" + after));
    AuthorityTextConcat("]", after);
    AuthorityTextConcat(address, "]" + after);
    AuthorityTextConcat("[", address + ("]" + after));
    assert authority[0] == '[' && authority[|address| + 1] == ']';
    RPartitionAbsent(authority, '@');
    assert authority == [] + ['['] + (address + "]" + after);
    PartitionAt([], '[', address + "]" + after);
    assert address + "]" + after == address + [']'] + after;
    PartitionAt(address, ']', after);
  }

  /**
   * Text before `[` in the host part is rejected, whatever follows `]`:
   * `http://h[::1]:8787/` raises.
   */
  lemma TextBeforeBracketRejected(scheme: string, host: string, address: string, after: string, rest: string)
    requires IsScheme(scheme) && IsPlainText(host) && IsPlainText(address) && IsPlainText(after) && host != []
    requires rest == [] || rest[0] in AuthorityEnd
    ensures Port(scheme + "://" + host + "[" + address + "]" + after + rest) == Failure(InvalidIPv6Message)
  {
    var authority := host + "[" + address + "]" + after;
    TextBeforeBracketAuthority(host, address, after);
    Regroup(scheme + "://", host, "[", address, "]", after, rest);
    NetlocOf(scheme, authority, rest);
  }

  lemma TextBeforeBracketAuthority(host: string, address: string, after: string)
    requires IsPlainText(host) && IsPlainText(address) && IsPlainText(after) && host != []
    ensures var authority := host + "[" + address + "]" + after;
            && IsAuthorityText(authority) && '[' in authority && ']' in authority
            && !BracketsPlaced(authority)
  {
    var authority := host + "[" + address + "]" + after;
    assert authority == host + ("[" + (address + ("]" + after)));
    AuthorityTextConcat("]", after);
    AuthorityTextConcat(address, "]" + after);
    AuthorityTextConcat("[", address + ("]" + after));
    AuthorityTextConcat(host, "[" + (address + ("]" + after)));
    assert authority[|host|] == '[' && authority[|host| + 1 + |address|] == ']';
    RPartitionAbsent(authority, '@');
    assert authority == host + ['['] + (address + "]" + after);
    PartitionAt(host, '[', address + "]" + after);
  }

  /** Concatenation regrouped around an authority, kept apart so that the URL lemmas stay cheap. */
  lemma Regroup(front: string, a: string, b: string, c: string, d: string, e: string, back: string)
    ensures front + a + b + c + d + e + back == front + (a + b + c + d + e) + back
  {
  }

  lemma AuthorityRegroup(front: string, host: string, text: string, rest: string)
    ensures front + host + ":" + text + rest == front + (host + ":" + text) + rest
  {
  }

  lemma BracketRegroup(scheme: string, address: string, close: string, after: string, rest: string)
    ensures scheme + "://[" + address + close + after + rest
            == scheme + "://" + ("[" + address + close + after) + rest
  {
    assert "://[" == "://" + "[";
  }
}
