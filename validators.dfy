/**
 * packages/shared/src/validators.ts: recognising Figma file URLs and pulling
 * the file key and the node id out of them. Each regular expression is
 * written out as the scan a backtracking matcher performs.
 */
module Validators {
  import opened Wrappers
  import opened Text

  const FILE_PATH := "figma.com/file/"
  const DESIGN_PATH := "figma.com/design/"
  const NODE_ID_KEY := "node-id="

  /** The least position in [from, to) satisfying `p`: where an unanchored regex first matches. */
  function FirstFrom(p: nat -> bool, from: nat, to: nat): (k: Option<nat>)
    ensures k.Some? ==> from <= k.value < to && p(k.value) && (forall j :: from <= j < k.value ==> !p(j))
    ensures k.None? ==> (forall j :: from <= j < to ==> !p(j))
    decreases if from <= to then to - from else 0
  {
    if from >= to then None
    else if p(from) then Some(from)
    else FirstFrom(p, from + 1, to)
  }

  /** The end of the longest run of characters satisfying `p` that starts at `i`: a greedy `[...]+`/`*`. */
  function RunEnd(s: string, i: nat, p: char -> bool): (j: nat)
    requires i <= |s|
    ensures i <= j <= |s|
    ensures forall k :: i <= k < j ==> p(s[k])
    ensures j == |s| || !p(s[j])
    decreases |s| - i
  {
    if i == |s| || !p(s[i]) then i else RunEnd(s, i + 1, p)
  }

  /** `/(file|design)\/[a-zA-Z0-9]+/` at position `i`, giving where the key starts. */
  function KeyStartAt(s: string, i: nat): (k: Option<nat>)
    ensures k.Some? ==> k.value < |s| && IsAlphanumeric(s[k.value])
  {
    if i <= |s| && StartsWith(s[i..], "file/") && i + 5 < |s| && IsAlphanumeric(s[i + 5]) then Some(i + 5)
    else if i <= |s| && StartsWith(s[i..], "design/") && i + 7 < |s| && IsAlphanumeric(s[i + 7]) then Some(i + 7)
    else None
  }

  /** `isValidFigmaUrl(url)`: `^https://(www.)?figma.com/(file|design)/[a-zA-Z0-9]+` */
  predicate IsValidFigmaUrl(url: string) {
    || (StartsWith(url, "https://figma.com/") && KeyStartAt(url, 18).Some?)
    || (StartsWith(url, "https://www.figma.com/") && KeyStartAt(url, 22).Some?)
  }

  /** `figma.com/(file|design)/[a-zA-Z0-9]+` matches at position `i`. */
  predicate KeyMatchAt(s: string, i: nat) {
    i <= |s| && StartsWith(s[i..], "figma.com/") && KeyStartAt(s, i + 10).Some?
  }

  /**
   * The key read at a match: the greedy `[a-zA-Z0-9]+`, so a non-empty
   * alphanumeric run that the URL does not continue.
   */
  function KeyFrom(url: string, i: nat): (key: string)
    requires KeyMatchAt(url, i)
    ensures var start := KeyStartAt(url, i + 10).value;
      && |key| >= 1 && start + |key| <= |url|
      && key == url[start..start + |key|]
      && (forall k :: 0 <= k < |key| ==> IsAlphanumeric(key[k]))
      && (start + |key| == |url| || !IsAlphanumeric(url[start + |key|]))
  {
    var start := KeyStartAt(url, i + 10).value;
    var end := RunEnd(url, start, IsAlphanumeric);
    assert IsAlphanumeric(url[start]);
    url[start..end]
  }

  /** `extractFileKeyFromUrl(url)`: the key of the leftmost match. */
  function ExtractFileKey(url: string): Option<string> {
    match FirstFrom((i: nat) => KeyMatchAt(url, i), 0, |url| + 1)
    case None => None
    case Some(i) => Some(KeyFrom(url, i))
  }

  /** A key is found exactly when the pattern occurs somewhere, and it is read at the leftmost occurrence. */
  lemma {:induction false} ExtractFileKeySpec(url: string)
    ensures ExtractFileKey(url).Some? <==> exists i :: 0 <= i <= |url| && KeyMatchAt(url, i)
    ensures ExtractFileKey(url).Some? ==>
      exists i :: 0 <= i <= |url| && KeyMatchAt(url, i) && (forall j :: 0 <= j < i ==> !KeyMatchAt(url, j))
        && ExtractFileKey(url) == Some(KeyFrom(url, i))
  {
    var p := (i: nat) => KeyMatchAt(url, i);
    var m := FirstFrom(p, 0, |url| + 1);
    if m.None? {
      forall i | 0 <= i <= |url| ensures !KeyMatchAt(url, i) { assert !p(i); }
    } else {
      var i := m.value;
      assert p(i);
      forall j | 0 <= j < i ensures !KeyMatchAt(url, j) { assert !p(j); }
    }
  }

  /** No earlier position of a URL starting `https://` or `https://www.` can begin "figma.com/". */
  lemma NoEarlierHost(url: string, h: nat, j: nat)
    requires (h == 8 && StartsWith(url, "https://")) || (h == 12 && StartsWith(url, "https://www."))
    requires j < h
    ensures !KeyMatchAt(url, j)
  {
    assert url[j] == (if h == 8 then "https://" else "https://www.")[j];
    assert url[j..][0] == url[j] != 'f';
    assert "figma.com/"[0] == 'f';
  }

  /** The scan stops at the host of a URL with a fixed `https://` or `https://www.` prefix. */
  lemma {:induction false} KeyAtHost(url: string, h: nat)
    requires (h == 8 && StartsWith(url, "https://")) || (h == 12 && StartsWith(url, "https://www."))
    requires KeyMatchAt(url, h)
    ensures ExtractFileKey(url) == Some(KeyFrom(url, h))
  {
    var p := (i: nat) => KeyMatchAt(url, i);
    assert p(h);
    forall j | 0 <= j < h ensures !p(j) {
      NoEarlierHost(url, h, j);
    }
    FirstIsLeast(p, h, |url| + 1);
  }

  /**
   * A valid URL always yields a key, and it is the alphanumeric run right
   * after the `file/` or `design/` that follows its host.
   */
  lemma {:induction false} ValidUrlYieldsKey(url: string)
    requires IsValidFigmaUrl(url)
    ensures ExtractFileKey(url).Some?
    ensures StartsWith(url, "https://figma.com/") ==>
      KeyMatchAt(url, 8) && ExtractFileKey(url) == Some(KeyFrom(url, 8))
    ensures StartsWith(url, "https://www.figma.com/") ==>
      KeyMatchAt(url, 12) && ExtractFileKey(url) == Some(KeyFrom(url, 12))
  {
    if StartsWith(url, "https://figma.com/") {
      assert url[..8] == "https://figma.com/"[..8];
      assert url[8..][..10] == "https://figma.com/"[8..];
      assert url[8] != "https://www.figma.com/"[8];
      KeyAtHost(url, 8);
    } else {
      assert url[..12] == "https://www.figma.com/"[..12];
      assert url[12..][..10] == "https://www.figma.com/"[12..];
      KeyAtHost(url, 12);
    }
  }

  /** When `p` holds at `k` and nowhere before, the scan from 0 stops at `k`. */
  lemma FirstIsLeast(p: nat -> bool, k: nat, to: nat)
    requires k < to && p(k) && forall j :: 0 <= j < k ==> !p(j)
    ensures FirstFrom(p, 0, to) == Some(k)
  {
    var m := FirstFrom(p, 0, to);
    assert m.Some?;
  }

  /** `node-id=` followed by a character other than '&' at position `i`. */
  predicate NodeIdMatchAt(s: string, i: nat) {
    i <= |s| && StartsWith(s[i..], NODE_ID_KEY) && i + 8 < |s| && s[i + 8] != '&'
  }

  function NotAmpersand(c: char): bool { c != '&' }

  /**
   * `extractNodeIdFromUrl(url)` before `decodeURIComponent`: the text after
   * the leftmost `node-id=` up to the next '&' or the end.
   */
  function ExtractNodeId(url: string): Option<string> {
    match FirstFrom((i: nat) => NodeIdMatchAt(url, i), 0, |url| + 1)
    case None => None
    case Some(i) => Some(url[i + 8..RunEnd(url, i + 8, NotAmpersand)])
  }

  /**
   * A node id is found exactly when some `node-id=` is followed by a
   * character other than '&'; it is then non-empty, holds no '&', and runs
   * to the next '&' or the end of the URL.
   */
  lemma {:induction false} ExtractNodeIdSpec(url: string)
    ensures ExtractNodeId(url).None? <==> forall i :: 0 <= i <= |url| ==> !NodeIdMatchAt(url, i)
    ensures ExtractNodeId(url).Some? ==>
      exists i :: 0 <= i <= |url| && NodeIdMatchAt(url, i) && (forall j :: 0 <= j < i ==> !NodeIdMatchAt(url, j))
        && var end := RunEnd(url, i + 8, NotAmpersand);
           && ExtractNodeId(url) == Some(url[i + 8..end])
           && i + 8 < end
           && (forall k :: i + 8 <= k < end ==> url[k] != '&')
           && (end == |url| || url[end] == '&')
  {
    var p := (i: nat) => NodeIdMatchAt(url, i);
    var m := FirstFrom(p, 0, |url| + 1);
    if m.None? {
      forall i | 0 <= i <= |url| ensures !NodeIdMatchAt(url, i) { assert !p(i); }
    } else {
      var i := m.value;
      assert p(i);
      forall j | 0 <= j < i ensures !NodeIdMatchAt(url, j) { assert !p(j); }
      var end := RunEnd(url, i + 8, NotAmpersand);
      assert NotAmpersand(url[i + 8]);
      forall k | i + 8 <= k < end ensures url[k] != '&' { assert NotAmpersand(url[k]); }
    }
  }
}
