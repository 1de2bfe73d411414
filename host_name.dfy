/** The host-name helper of the page script (ui.js): the host part of a story
    url, without a leading "www.", built from JavaScript's `indexOf`, `split`
    and `slice` on strings. */
module HostName {

  /** `pat` occurs in `s` starting at index `i`. */
  predicate OccursAt(s: string, pat: string, i: int) {
    0 <= i && i + |pat| <= |s| && s[i..i + |pat|] == pat
  }

  /** `t` is a contiguous piece of `s`. */
  predicate IsSubstring(t: string, s: string) {
    exists a, b :: 0 <= a <= b <= |s| && t == s[a..b]
  }

  /** `s.indexOf(pat, i)`: the first occurrence at or after `i`, or -1. */
  function IndexFrom(s: string, pat: string, i: nat): (k: int)
    requires i <= |s|
    ensures k == -1 || (i <= k && OccursAt(s, pat, k))
    ensures forall j :: i <= j && (k == -1 || j < k) ==> !OccursAt(s, pat, j)
    decreases |s| - i
  {
    if OccursAt(s, pat, i) then i
    else if i == |s| then -1
    else IndexFrom(s, pat, i + 1)
  }

  /** `s.indexOf(pat)`. */
  function IndexOf(s: string, pat: string): (k: int)
    ensures k == -1 || OccursAt(s, pat, k)
    ensures forall j :: 0 <= j && (k == -1 || j < k) ==> !OccursAt(s, pat, j)
  {
    IndexFrom(s, pat, 0)
  }

  lemma OccursAtChar(s: string, c: char, j: int)
    ensures OccursAt(s, [c], j) <==> 0 <= j < |s| && s[j] == c
  {
    if 0 <= j < |s| {
      assert s[j..j + 1] == [s[j]];
    }
  }

  /** `s.split(sep)` for a one-character separator: the pieces between
      separators, empty pieces included. */
  function Split(s: string, sep: char): (parts: seq<string>)
    ensures |parts| >= 1
    decreases |s|
  {
    var i := IndexOf(s, [sep]);
    if i == -1 then [s] else [s[..i]] + Split(s[i + 1..], sep)
  }

  /** `parts.join(sep)`: the pieces with one separator between neighbours. */
  function Join(parts: seq<string>, sep: char): string {
    if |parts| == 0 then ""
    else if |parts| == 1 then parts[0]
    else parts[0] + [sep] + Join(parts[1..], sep)
  }

  /** The segment `getHostName` keeps: index 2 of the split when the url
      holds "://", index 0 otherwise. It holds no '/' and is a piece of the
      url. */
  function HostSegment(url: string): (seg: string)
    ensures '/' !in seg
    ensures IsSubstring(seg, url)
  {
    SplitPiecesHaveNoSeparator(url, '/');
    if IndexOf(url, "://") > -1
    then SchemeSplitsInThree(url); SplitPieceIsSubstring(url, '/', 2); Split(url, '/')[2]
    else SplitPieceIsSubstring(url, '/', 0); Split(url, '/')[0]
  }

  /** `h.slice(0, 4) === "www."`, then `h.slice(4)`: one leading "www." comes
      off, and nothing else changes. */
  function StripWww(h: string): (r: string)
    ensures if |h| >= 4 && h[..4] == "www." then h == "www." + r else r == h
  {
    if h[..if |h| < 4 then |h| else 4] == "www." then h[4..] else h
  }

  /** `getHostName(url)`: a piece of the url holding no '/'. */
  function GetHostName(url: string): (host: string)
    ensures '/' !in host
    ensures IsSubstring(host, url) && |host| <= |url|
  {
    var seg := HostSegment(url);
    StripWwwKeepsNoSlash(seg);
    StripWwwKeepsSubstring(seg, url);
    StripWww(seg)
  }

  /** No piece of a split holds the separator. */
  lemma {:induction false} SplitPiecesHaveNoSeparator(s: string, sep: char)
    ensures forall k :: 0 <= k < |Split(s, sep)| ==> sep !in Split(s, sep)[k]
    decreases |s|
  {
    var i := IndexOf(s, [sep]);
    var upto := if i == -1 then |s| else i;
    forall j | 0 <= j < upto ensures s[j] != sep {
      OccursAtChar(s, sep, j);
    }
    if i != -1 {
      SplitPiecesHaveNoSeparator(s[i + 1..], sep);
      assert Split(s, sep) == [s[..i]] + Split(s[i + 1..], sep);
      forall k | 0 <= k < |Split(s, sep)| ensures sep !in Split(s, sep)[k] {
        if k == 0 {
          assert forall j :: 0 <= j < i ==> s[..i][j] == s[j];
        } else {
          assert Split(s, sep)[k] == Split(s[i + 1..], sep)[k - 1];
        }
      }
    }
  }

  /** A substring of a suffix is a substring of the whole. */
  lemma SubstringOfSuffix(t: string, s: string, off: nat)
    requires off <= |s| && IsSubstring(t, s[off..])
    ensures IsSubstring(t, s)
  {
    var a, b :| 0 <= a <= b <= |s[off..]| && t == s[off..][a..b];
    assert t == s[off + a..off + b];
  }

  /** Every piece of a split is a contiguous substring of the input. */
  lemma {:induction false} SplitPieceIsSubstring(s: string, sep: char, k: nat)
    requires k < |Split(s, sep)|
    ensures IsSubstring(Split(s, sep)[k], s)
    decreases |s|
  {
    var i := IndexOf(s, [sep]);
    if i == -1 {
      assert Split(s, sep)[k] == s[0..|s|];
    } else if k == 0 {
      assert Split(s, sep)[0] == s[0..i];
    } else {
      assert Split(s, sep)[k] == Split(s[i + 1..], sep)[k - 1];
      SplitPieceIsSubstring(s[i + 1..], sep, k - 1);
      SubstringOfSuffix(Split(s, sep)[k], s, i + 1);
    }
  }

  /** A string holding the separator splits into at least two pieces. */
  lemma SplitAtSeparator(s: string, sep: char, p: int)
    requires 0 <= p < |s| && s[p] == sep
    ensures IndexOf(s, [sep]) != -1 && IndexOf(s, [sep]) <= p
    ensures |Split(s, sep)| >= 2
  {
    OccursAtChar(s, sep, p);
  }

  /** A url holding "://" has the two separators of the scheme, so its split
      has an index 2: `url.split("/")[2]` is always defined. */
  lemma SchemeSplitsInThree(url: string)
    requires IndexOf(url, "://") > -1
    ensures |Split(url, '/')| >= 3
  {
    var p := IndexOf(url, "://");
    assert url[p..p + 3] == "://";
    assert url[p + 1] == url[p..p + 3][1] == '/';
    assert url[p + 2] == url[p..p + 3][2] == '/';
    SplitAtSeparator(url, '/', p + 1);
    var i := IndexOf(url, ['/']);
    var rest := url[i + 1..];
    assert rest[p + 1 - i] == url[p + 2];
    SplitAtSeparator(rest, '/', p + 1 - i);
  }

  /** Without "://" the host segment is the text before the first '/', or the
      whole url when it has none. */
  lemma HostSegmentWithoutScheme(url: string)
    requires IndexOf(url, "://") == -1
    ensures '/' !in url ==> HostSegment(url) == url
    ensures forall k :: 0 <= k < |url| && url[k] == '/' && '/' !in url[..k] ==> HostSegment(url) == url[..k]
  {
    var i := IndexOf(url, ['/']);
    forall k | 0 <= k < |url| && url[k] == '/' && '/' !in url[..k] ensures i == k {
      OccursAtChar(url, '/', k);
      OccursAtChar(url, '/', i);
    }
    if '/' !in url && i != -1 {
      OccursAtChar(url, '/', i);
    }
  }

  /** A leading "www." is removed once, and only when it is there. */
  lemma StripWwwOnce(h: string)
    ensures |h| >= 4 && h[..4] == "www." ==> StripWww(h) == h[4..]
    ensures !(|h| >= 4 && h[..4] == "www.") ==> StripWww(h) == h
    ensures StripWww("www.www.x") == "www.x"
  {
    assert "www.www.x"[..4] == "www.";
  }

  lemma StripWwwKeepsNoSlash(h: string)
    requires '/' !in h
    ensures '/' !in StripWww(h)
  {
    if |h| >= 4 && h[..4] == "www." {
      assert forall j :: 0 <= j < |h[4..]| ==> h[4..][j] == h[j + 4];
    }
  }

  lemma StripWwwKeepsSubstring(h: string, url: string)
    requires IsSubstring(h, url)
    ensures IsSubstring(StripWww(h), url)
  {
    var a, b :| 0 <= a <= b <= |url| && h == url[a..b];
    if |h| >= 4 && h[..4] == "www." {
      assert h[4..] == url[a + 4..b];
    }
  }

  /** Joining the pieces of a split with the separator gives the input back. */
  lemma {:induction false} SplitJoin(s: string, sep: char)
    ensures Join(Split(s, sep), sep) == s
    decreases |s|
  {
    var i := IndexOf(s, [sep]);
    if i != -1 {
      var rest := Split(s[i + 1..], sep);
      SplitJoin(s[i + 1..], sep);
      OccursAtChar(s, sep, i);
      assert ([s[..i]] + rest)[1..] == rest;
      assert s == s[..i] + [sep] + s[i + 1..];
    }
  }

  lemma ExampleFirstSlash(url: string)
    requires url == "http://www.www.x/p"
    ensures IndexOf(url, "/") == 5 && url[6..] == "/www.www.x/p"
  {
    SplitAtSeparator(url, '/', 5);
    OccursAtChar(url, '/', 0); OccursAtChar(url, '/', 1); OccursAtChar(url, '/', 2);
    OccursAtChar(url, '/', 3); OccursAtChar(url, '/', 4);
  }

  lemma ExampleThirdSlash(rest: string)
    requires rest == "www.www.x/p"
    ensures IndexOf(rest, "/") == 9 && rest[..9] == "www.www.x"
  {
    SplitAtSeparator(rest, '/', 9);
    OccursAtChar(rest, '/', 0); OccursAtChar(rest, '/', 1); OccursAtChar(rest, '/', 2);
    OccursAtChar(rest, '/', 3); OccursAtChar(rest, '/', 4); OccursAtChar(rest, '/', 5);
    OccursAtChar(rest, '/', 6); OccursAtChar(rest, '/', 7); OccursAtChar(rest, '/', 8);
  }

  /** A url with a scheme keeps the third piece and loses one "www." only. */
  lemma GetHostNameExample(url: string)
    requires url == "http://www.www.x/p"
    ensures GetHostName(url) == "www.x"
  {
    assert OccursAt(url, "://", 4);
    ExampleFirstSlash(url);
    assert url[6..][1..] == url[7..];
    assert OccursAt(url[6..], "/", 0);
    ExampleThirdSlash(url[7..]);
    assert Split(url[6..], '/') == [url[6..][..0]] + Split(url[7..], '/');
    assert Split(url, '/') == [url[..5]] + Split(url[6..], '/');
    assert Split(url, '/')[2] == Split(url[7..], '/')[0] == url[7..][..9];
    StripWwwOnce("www.www.x");
  }
}
