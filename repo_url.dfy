/**
 * The owner/repository split of `main` in main.py:
 * `owner, repo = url.strip().split('/')[-2:]`.
 */
module RepoUrl {
  import opened Wrappers

  /** Python's `str.isspace` for a single character. */
  predicate IsSpace(c: char) {
    || ('\U{0009}' <= c <= '\U{000D}')
    || ('\U{001C}' <= c <= '\U{0020}')
    || c == '\U{0085}' || c == '\U{00A0}' || c == '\U{1680}'
    || ('\U{2000}' <= c <= '\U{200A}')
    || c == '\U{2028}' || c == '\U{2029}' || c == '\U{202F}' || c == '\U{205F}' || c == '\U{3000}'
  }

  /** `s.lstrip()`: the longest suffix of `s` that does not start with whitespace. */
  function TrimStart(s: string): (r: string)
    ensures |r| <= |s| && r == s[|s| - |r|..]
    ensures forall i | 0 <= i < |s| - |r| :: IsSpace(s[i])
    ensures r == [] || !IsSpace(r[0])
  {
    if s != [] && IsSpace(s[0]) then TrimStart(s[1..]) else s
  }

  /** `s.rstrip()`: the longest prefix of `s` that does not end with whitespace. */
  function TrimEnd(s: string): (r: string)
    ensures |r| <= |s| && r == s[..|r|]
    ensures forall i | |r| <= i < |s| :: IsSpace(s[i])
    ensures r == [] || !IsSpace(r[|r| - 1])
  {
    if s != [] && IsSpace(s[|s| - 1]) then TrimEnd(s[..|s| - 1]) else s
  }

  function Strip(s: string): string {
    TrimEnd(TrimStart(s))
  }

  /** The pieces joined back with '/' between them. */
  function Join(parts: seq<string>): string
    requires |parts| >= 1
  {
    if |parts| == 1 then parts[0] else Join(parts[..|parts| - 1]) + "/" + parts[|parts| - 1]
  }

  /** `s.split('/')`: the pieces between the separators, empty ones included. */
  function Split(s: string): (parts: seq<string>)
    ensures |parts| >= 1
  {
    if s == [] then [""]
    else
      var init, c := Split(s[..|s| - 1]), s[|s| - 1];
      if c == '/' then init + [""]
      else init[..|init| - 1] + [init[|init| - 1] + [c]]
  }

  /**
   * The pieces hold no separator, joined back with '/' they give `s`, and
   * there is more than one exactly when `s` holds a separator.
   */
  lemma {:induction false} SplitPieces(s: string)
    ensures forall i | 0 <= i < |Split(s)| :: '/' !in Split(s)[i]
    ensures Join(Split(s)) == s
    ensures |Split(s)| > 1 <==> '/' in s
  {
    if s != [] {
      var s', c := s[..|s| - 1], s[|s| - 1];
      assert s == s' + [c];
      SplitPieces(s');
      var init := Split(s');
      if c == '/' {
        assert (init + [""])[..|init|] == init;
      } else {
        var last := init[|init| - 1] + [c];
        var parts := init[..|init| - 1] + [last];
        assert Split(s) == parts;
        assert parts[..|parts| - 1] == init[..|init| - 1];
        assert forall x :: x in last <==> x in init[|init| - 1] || x == c;
        if |init| > 1 {
          assert Join(init) == Join(init[..|init| - 1]) + "/" + init[|init| - 1];
        }
      }
    }
  }

  /** One more non-separator character extends the last piece. */
  lemma SplitSnoc(s: string, c: char)
    requires c != '/'
    ensures var p := Split(s);
      Split(s + [c]) == p[..|p| - 1] + [p[|p| - 1] + [c]]
  {
  }

  /** Splitting a string that ends in a separator-free piece `b`. */
  lemma {:induction false} SplitAppend(a: string, b: string)
    requires '/' !in b
    ensures var p := Split(a);
      Split(a + b) == p[..|p| - 1] + [p[|p| - 1] + b]
    decreases |b|
  {
    var p := Split(a);
    var front, last := p[..|p| - 1], p[|p| - 1];
    if b == [] {
      assert a + b == a && last + b == last;
      assert p == front + [last];
    } else {
      var b', c := b[..|b| - 1], b[|b| - 1];
      assert b == b' + [c];
      assert '/' !in b' && c != '/' by {
        assert b[..|b| - 1] == b';
      }
      SplitAppend(a, b');
      var q := Split(a + b');
      assert q == front + [last + b'];
      SplitSnoc(a + b', c);
      assert a + b == (a + b') + [c];
      assert q[..|q| - 1] == front && q[|q| - 1] == last + b';
      assert (last + b') + [c] == last + b;
    }
  }

  /** Split undoes Join for separator-free pieces. */
  lemma {:induction false} SplitJoin(parts: seq<string>)
    requires |parts| >= 1
    requires forall i | 0 <= i < |parts| :: '/' !in parts[i]
    ensures Split(Join(parts)) == parts
  {
    if |parts| == 1 {
      SplitAppend([], parts[0]);
      assert [] + parts[0] == parts[0] && "" + parts[0] == parts[0];
    } else {
      var init, last := parts[..|parts| - 1], parts[|parts| - 1];
      SplitJoin(init);
      var a := Join(init) + "/";
      assert a[..|a| - 1] == Join(init) && a[|a| - 1] == '/';
      assert Split(a) == init + [""];
      SplitAppend(a, last);
      assert Join(parts) == a + last;
      assert (init + [""])[..|init|] == init && (init + [""])[|init|] + last == last;
      assert parts == init + [last];
    }
  }

  /** Unpacking fewer than two pieces into `owner, repo` raises ValueError. */
  datatype Error = NotEnoughValuesToUnpack

  /** The last two '/'-separated pieces of `t`, unpacked into a pair. */
  function LastTwo(t: string): Result<(string, string), Error> {
    var parts := Split(t);
    if |parts| < 2 then Err(NotEnoughValuesToUnpack)
    else Ok((parts[|parts| - 2], parts[|parts| - 1]))
  }

  /** Owner and repository of a url: the last two pieces of the stripped url. */
  function OwnerRepo(url: string): Result<(string, string), Error> {
    LastTwo(Strip(url))
  }

  /**
   * The unpacking succeeds exactly when `t` holds a '/'; then owner and repo
   * hold no '/' and `t` ends with owner + "/" + repo, at its start or right
   * after another '/'.
   */
  lemma LastTwoSpec(t: string)
    ensures LastTwo(t).Ok? <==> '/' in t
    ensures LastTwo(t).Ok? ==>
              var (owner, repo) := LastTwo(t).value;
              var k := |t| - |owner| - 1 - |repo|;
              && '/' !in owner && '/' !in repo
              && 0 <= k && t[k..] == owner + "/" + repo
              && (k == 0 || t[k - 1] == '/')
  {
    SplitPieces(t);
    if |Split(t)| >= 2 {
      JoinEndsWithLastTwo(Split(t));
    }
  }

  /** A join of two or more pieces ends with the last two, joined, at its start or after a '/'. */
  lemma JoinEndsWithLastTwo(parts: seq<string>)
    requires |parts| >= 2
    ensures var n, t := |parts|, Join(parts);
      var k := |t| - |parts[n - 2]| - 1 - |parts[n - 1]|;
      0 <= k && t[k..] == parts[n - 2] + "/" + parts[n - 1] && (k == 0 || t[k - 1] == '/')
  {
  }
}
