/**
 * `url_path_join` from the notebook server's utilities. Its source is not part
 * of this model. Its docstring promises only that the initial and final `/`
 * are left in place; the rest is an assumed specification: strip every
 * leading and trailing `/` from each piece (Python's `str.strip('/')`), join
 * the pieces that are left non-empty with a single `/`, put back a leading
 * `/` when the first piece had one and a trailing `/` when the last piece had
 * one, and collapse a result of `//` to `/`.
 */
module UrlPath {
  import opened Strings

  /** Neither the first nor the last character is a slash. */
  predicate NoEdgeSlash(s: string) {
    s == [] || (s[0] != '/' && s[|s| - 1] != '/')
  }

  predicate AllSlashes(s: string) {
    forall k :: 0 <= k < |s| ==> s[k] == '/'
  }

  /** `s.lstrip('/')`: the suffix of `s` left once every leading slash is gone. */
  function TrimLeadingSlashes(s: string): (r: string)
    ensures |r| <= |s| && r == s[|s| - |r|..]
    ensures AllSlashes(s[..|s| - |r|])
    ensures r == [] || r[0] != '/'
  {
    if s != [] && s[0] == '/' then TrimLeadingSlashes(s[1..]) else s
  }

  /** `s.rstrip('/')`: the prefix of `s` left once every trailing slash is gone. */
  function TrimTrailingSlashes(s: string): (r: string)
    ensures |r| <= |s| && r == s[..|r|]
    ensures AllSlashes(s[|r|..])
    ensures r == [] || r[|r| - 1] != '/'
  {
    if s != [] && s[|s| - 1] == '/' then TrimTrailingSlashes(s[..|s| - 1]) else s
  }

  /** `s.strip('/')`. */
  function Strip(s: string): (r: string)
    ensures NoEdgeSlash(r)
    ensures r == [] <==> AllSlashes(s)
    ensures NoEdgeSlash(s) ==> r == s
  {
    var t := TrimLeadingSlashes(s);
    var r := TrimTrailingSlashes(t);
    assert r != [] ==> r[0] == t[0];
    assert r == [] ==> s == s[..|s| - |t|];
    r
  }

  /**
   * Stripping removes the slashes at the two ends of the input and nothing
   * else: the result is a slice `s[i..j]` with only slashes before `i` and
   * after `j`.
   */
  lemma StripRemovesOnlyEdgeSlashes(s: string)
    ensures exists i, j :: 0 <= i <= j <= |s| && Strip(s) == s[i..j] && AllSlashes(s[..i]) && AllSlashes(s[j..])
  {
    var t := TrimLeadingSlashes(s);
    var r := TrimTrailingSlashes(t);
    var i, j := |s| - |t|, |s| - |t| + |r|;
    assert Strip(s) == s[i..j] by {
      assert r == s[i..j];
    }
    assert AllSlashes(s[..i]) && AllSlashes(s[j..]) by {
      assert s[j..] == t[|r|..];
    }
  }

  /**
   * `'/'.join(s for s in stripped if s)` where `stripped` holds every piece
   * with its edge slashes stripped: the text of the pieces, one slash apart.
   */
  function JoinStripped(pieces: seq<string>): (r: string)
    ensures r == [] <==> forall i :: 0 <= i < |pieces| ==> AllSlashes(pieces[i])
    ensures NoEdgeSlash(r)
  {
    if pieces == [] then ""
    else
      var head, rest := Strip(pieces[0]), JoinStripped(pieces[1..]);
      AllSlashPieces(pieces);
      if head == [] then rest
      else if rest == [] then head
      else
        var r := head + "/" + rest;
        assert r[0] == head[0] && r[|r| - 1] == rest[|rest| - 1];
        r
  }

  /** Every piece is all slashes exactly when the first one is and every later one is. */
  lemma AllSlashPieces(pieces: seq<string>)
    requires pieces != []
    ensures (forall i :: 0 <= i < |pieces| ==> AllSlashes(pieces[i]))
            <==> AllSlashes(pieces[0]) && forall i :: 0 <= i < |pieces[1..]| ==> AllSlashes(pieces[1..][i])
  {
    assert forall i :: 1 <= i < |pieces| ==> pieces[i] == pieces[1..][i - 1];
  }

  /** The slash `url_path_join` puts back in front: there when the first piece starts with one. */
  function LeadingSlash(first: string): string {
    if first != [] && first[0] == '/' then "/" else ""
  }

  /** The slash `url_path_join` puts back at the end: there when the last piece ends with one. */
  function TrailingSlash(last: string): string {
    if last != [] && last[|last| - 1] == '/' then "/" else ""
  }

  /**
   * `url_path_join(*pieces)`. Called with no pieces at all, the Python
   * function fails on `pieces[0]`; the model asks for at least one. As its
   * docstring promises, an initial `/` of the first piece and a final `/` of
   * the last piece are still there in the result.
   */
  function UrlPathJoin(pieces: seq<string>): (r: string)
    requires |pieces| > 0
    ensures LeadingSlash(pieces[0]) == "/" ==> r != [] && r[0] == '/'
    ensures TrailingSlash(pieces[|pieces| - 1]) == "/" ==> r != [] && r[|r| - 1] == '/'
  {
    var lead, trail := LeadingSlash(pieces[0]), TrailingSlash(pieces[|pieces| - 1]);
    var r := lead + JoinStripped(pieces) + trail;
    assert lead == "/" ==> r[0] == '/';
    assert trail == "/" ==> r[|r| - 1] == '/';
    if r == "//" then "/" else r
  }

  /**
   * Joining two pieces that both keep some text: the pieces appear in order,
   * stripped, with one slash between them, and the outer slashes of the
   * call survive.
   */
  lemma UrlPathJoinTwo(first: string, last: string)
    requires Strip(first) != [] && Strip(last) != []
    ensures UrlPathJoin([first, last])
            == LeadingSlash(first) + Strip(first) + "/" + Strip(last) + TrailingSlash(last)
  {
    var a, b := Strip(first), Strip(last);
    JoinStrippedTwo(first, last);
    var r := LeadingSlash(first) + (a + "/" + b) + TrailingSlash(last);
    assert |r| >= 3;
    Regroup(LeadingSlash(first), a, b, TrailingSlash(last));
  }

  /** Two pieces that both keep some text are joined with one slash. */
  lemma JoinStrippedTwo(first: string, last: string)
    requires Strip(first) != [] && Strip(last) != []
    ensures JoinStripped([first, last]) == Strip(first) + "/" + Strip(last)
  {
    assert [first, last][1..] == [last] && [last][1..] == [];
    assert JoinStripped([last]) == Strip(last);
  }

  /**
   * At the seam of two pieces that keep some text there is exactly one
   * slash: no doubled and no missing slash.
   */
  lemma UrlPathJoinSeam(first: string, last: string)
    requires Strip(first) != [] && Strip(last) != []
    ensures var k := |LeadingSlash(first)| + |Strip(first)|;
            var r := UrlPathJoin([first, last]);
            0 < k < |r| - 1 && r[k] == '/' && r[k - 1] != '/' && r[k + 1] != '/'
  {
    UrlPathJoinTwo(first, last);
    SingleSlashSeam(LeadingSlash(first), Strip(first), Strip(last), TrailingSlash(last));
  }

  /**
   * A base without edge slashes (such as `scheme://host`) is kept whole in
   * front, followed by one slash and the stripped piece when the piece keeps
   * some text, and by the piece's trailing slash, if any.
   */
  lemma UrlPathJoinOntoBase(base: string, piece: string)
    requires base != [] && NoEdgeSlash(base)
    ensures Strip(piece) != [] ==> UrlPathJoin([base, piece]) == base + "/" + Strip(piece) + TrailingSlash(piece)
    ensures Strip(piece) == [] ==> UrlPathJoin([base, piece]) == base + TrailingSlash(piece)
  {
    assert LeadingSlash(base) == "" && Strip(base) == base;
    var a, trail := Strip(piece), TrailingSlash(piece);
    if a == [] {
      UrlPathJoinEmptyLast(base, piece);
    } else {
      UrlPathJoinTwo(base, piece);
    }
    OntoBaseRegroup(base, a, trail);
  }

  /**
   * Joining a piece that keeps some text with one that is only slashes (or
   * empty): the result is the first piece, stripped, with the outer slashes
   * of the call and nothing in between.
   */
  lemma UrlPathJoinEmptyLast(first: string, last: string)
    requires Strip(first) != [] && AllSlashes(last)
    ensures UrlPathJoin([first, last]) == LeadingSlash(first) + Strip(first) + TrailingSlash(last)
  {
    var a := Strip(first);
    assert [first, last][1..] == [last] && [last][1..] == [];
    assert JoinStripped([last]) == [];
    var joined := JoinStripped([first, last]);
    assert joined == a;
    var r := LeadingSlash(first) + joined + TrailingSlash(last);
    assert r != "//" by {
      if |r| == 2 { assert r[|LeadingSlash(first)|] == a[0] != '/'; }
    }
    assert UrlPathJoin([first, last]) == r;
  }

  lemma SingleSlashSeam(lead: string, a: string, b: string, trail: string)
    requires a != [] && b != [] && NoEdgeSlash(a) && NoEdgeSlash(b)
    ensures var r, k := lead + a + "/" + b + trail, |lead| + |a|;
            0 < k < |r| - 1 && r[k] == '/' && r[k - 1] != '/' && r[k + 1] != '/'
  {
    var r := lead + a + "/" + b + trail;
    assert r == (lead + a) + "/" + (b + trail);
  }

  /** Concatenation regrouped, kept apart so that the join lemmas stay cheap. */
  lemma Regroup(lead: string, a: string, b: string, trail: string)
    ensures lead + (a + "/" + b) + trail == lead + a + "/" + b + trail
  {
  }

  lemma OntoBaseRegroup(base: string, a: string, trail: string)
    ensures "" + base + trail == base + trail
    ensures "" + base + "/" + a + trail == base + "/" + a + trail
  {
  }
}
