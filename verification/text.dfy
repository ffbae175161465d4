/** The string operations the route handlers apply to generated text:
    JavaScript's `String.prototype.trim`, `startsWith`, `endsWith` and
    `slice`, and the two code-fence cleanups built from them. */
module Text {

  /** The characters `trim` removes: ECMAScript WhiteSpace and LineTerminator. */
  predicate IsSpace(c: char) {
    || c == '\t' || c == '\n' || c == '\U{000B}' || c == '\U{000C}' || c == '\r'
    || c == ' ' || c == '\U{00A0}' || c == '\U{1680}'
    || ('\U{2000}' <= c <= '\U{200A}')
    || c == '\U{2028}' || c == '\U{2029}' || c == '\U{202F}' || c == '\U{205F}'
    || c == '\U{3000}' || c == '\U{FEFF}'
  }

  predicate AllSpace(s: string) {
    forall i :: 0 <= i < |s| ==> IsSpace(s[i])
  }

  /** Neither begins nor ends with white space: what `trim` produces. */
  predicate Clean(s: string) {
    s == [] || (!IsSpace(s[0]) && !IsSpace(s[|s| - 1]))
  }

  /** Length of the white-space run at the front of `s`. */
  function LeadingSpace(s: string): (n: nat)
    ensures n <= |s|
    ensures forall i :: 0 <= i < n ==> IsSpace(s[i])
    ensures n < |s| ==> !IsSpace(s[n])
  {
    if |s| > 0 && IsSpace(s[0]) then
      var n := 1 + LeadingSpace(s[1..]);
      assert forall i :: 1 <= i < n ==> s[i] == s[1..][i - 1];
      n
    else 0
  }

  /** Length of the white-space run at the back of `s`. */
  function TrailingSpace(s: string): (n: nat)
    ensures n <= |s|
    ensures forall i :: |s| - n <= i < |s| ==> IsSpace(s[i])
    ensures n < |s| ==> !IsSpace(s[|s| - n - 1])
  {
    if |s| > 0 && IsSpace(s[|s| - 1]) then
      var n := 1 + TrailingSpace(s[..|s| - 1]);
      assert forall i :: |s| - n <= i < |s| - 1 ==> s[i] == s[..|s| - 1][i];
      n
    else 0
  }

  /** A run of white space, seen as a slice of its own. */
  lemma SpaceSlice(s: string, lo: nat, hi: nat)
    requires lo <= hi <= |s| && forall i :: lo <= i < hi ==> IsSpace(s[i])
    ensures AllSpace(s[lo..hi])
  {
    assert forall i :: 0 <= i < hi - lo ==> s[lo..hi][i] == s[lo + i];
  }

  /** `s.trim()`: the infix of `s` left once the white space at both ends is
      gone. It is clean, and only white space lies around it. */
  function Trim(s: string): (r: string)
    ensures Clean(r)
    ensures LeadingSpace(s) + |r| <= |s|
    ensures r == s[LeadingSpace(s)..LeadingSpace(s) + |r|]
    ensures AllSpace(s[LeadingSpace(s) + |r|..])
  {
    var a, b := LeadingSpace(s), TrailingSpace(s);
    if a == |s| then
      SpaceSlice(s, |s|, |s|);
      []
    else
      SpaceSlice(s, |s| - b, |s|);
      var r := s[a..|s| - b];
      assert r[0] == s[a] && r[|r| - 1] == s[|s| - b - 1];
      r
  }

  /** `LeadingSpace` is the unique split point: white space before it and
      a non-space (or the end) at it. */
  lemma {:induction false} LeadingSpaceExact(s: string, k: nat)
    requires k <= |s| && AllSpace(s[..k]) && (k < |s| ==> !IsSpace(s[k]))
    ensures LeadingSpace(s) == k
  {
    if k > 0 {
      assert IsSpace(s[..k][0]);
      assert s[1..][..k - 1] == s[..k][1..];
      LeadingSpaceExact(s[1..], k - 1);
    }
  }

  /** `TrailingSpace` is the unique split point counted from the back. */
  lemma {:induction false} TrailingSpaceExact(s: string, k: nat)
    requires k <= |s| && AllSpace(s[|s| - k..]) && (k < |s| ==> !IsSpace(s[|s| - k - 1]))
    ensures TrailingSpace(s) == k
  {
    if k > 0 {
      assert IsSpace(s[|s| - k..][k - 1]);
      var s' := s[..|s| - 1];
      var tail, tail' := s[|s| - k..], s'[|s'| - (k - 1)..];
      assert forall i :: 0 <= i < |tail'| ==> tail'[i] == tail[i];
      TrailingSpaceExact(s', k - 1);
    }
  }

  /** Padding a clean text with white space and trimming gives the text back:
      together with the contract of `Trim`, this pins `Trim` down exactly. */
  lemma TrimPadded(pre: string, t: string, post: string)
    requires AllSpace(pre) && AllSpace(post) && Clean(t)
    ensures Trim(pre + t + post) == t
  {
    var s := pre + t + post;
    if t == [] {
      assert s == pre + post;
      assert AllSpace(s) by {
        forall i | 0 <= i < |s| ensures IsSpace(s[i]) {
          if i < |pre| { assert s[i] == pre[i]; } else { assert s[i] == post[i - |pre|]; }
        }
      }
      assert s[..|s|] == s;
      LeadingSpaceExact(s, |s|);
    } else {
      assert s[..|pre|] == pre;
      assert s[|pre|] == t[0];
      LeadingSpaceExact(s, |pre|);
      var u := s[|pre|..];
      assert u == t + post;
      assert u[|u| - |post|..] == post;
      assert u[|u| - |post| - 1] == t[|t| - 1];
      TrailingSpaceExact(u, |post|);
      assert u[..|u| - |post|] == t;
    }
  }

  /** Trimming twice is trimming once. */
  lemma TrimIdempotent(s: string)
    ensures Trim(Trim(s)) == Trim(s)
  {
    TrimPadded([], Trim(s), []);
    assert [] + Trim(s) + [] == Trim(s);
  }

  predicate StartsWith(s: string, prefix: string) {
    |prefix| <= |s| && s[..|prefix|] == prefix
  }

  predicate EndsWith(s: string, suffix: string) {
    |suffix| <= |s| && s[|s| - |suffix|..] == suffix
  }

  /** Where `slice` puts an index: a negative index counts from the end, and
      the result is clamped into `0..len`. */
  function SliceIndex(len: nat, i: int): (k: nat)
    ensures k <= len
    ensures 0 <= i <= len ==> k == i
    ensures i < 0 && len + i >= 0 ==> k == len + i
    ensures len + i < 0 ==> k == 0
    ensures i > len ==> k == len
  {
    if i < 0 then (if len + i < 0 then 0 else len + i)
    else if i < len then i else len
  }

  /** `s.slice(start, end)`; empty when the resolved end is not after the
      resolved start. */
  function JsSlice(s: string, start: int, end: int): string {
    var a := SliceIndex(|s|, start);
    var b := SliceIndex(|s|, end);
    if a < b then s[a..b] else []
  }

  const Fence: string := "```"
  const JsonFenceOpen: string := "```json\n"
  const JsonFenceClose: string := "\n```"

  /** The cleanup of hints and feedback, applied to text that is already
      trimmed: when it both starts and ends with three backticks it loses three
      characters at each end and is trimmed again. Text of 3 to 5 backticks
      satisfies both tests with overlapping fences and becomes empty. */
  function StripFence(t: string): (r: string)
    ensures StartsWith(t, Fence) && EndsWith(t, Fence) && |t| >= 6 ==> r == Trim(t[3..|t| - 3])
    ensures StartsWith(t, Fence) && EndsWith(t, Fence) && |t| < 6 ==> r == []
    ensures !(StartsWith(t, Fence) && EndsWith(t, Fence)) ==> r == t
  {
    if StartsWith(t, Fence) && EndsWith(t, Fence) then Trim(JsSlice(t, 3, -3)) else t
  }

  /** What hints and feedback become: the generator's text trimmed, then
      stripped of one pair of fences. */
  function CleanGenerated(raw: string): (r: string)
    ensures Clean(r)
    ensures |r| <= |raw|
  {
    StripFence(Trim(raw))
  }

  /** A fenced text loses exactly its fences (and the white space inside them). */
  lemma FenceRoundTrip(body: string)
    ensures CleanGenerated(Fence + body + Fence) == Trim(body)
  {
    var s := Fence + body + Fence;
    assert Trim(s) == s by {
      assert s[0] == '`' && s[|s| - 1] == '`';
      TrimPadded([], s, []);
      assert [] + s + [] == s;
    }
    assert StartsWith(s, Fence) && EndsWith(s, Fence) by {
      assert s[..3] == Fence;
      assert s[|s| - 3..] == Fence;
    }
    assert s[3..|s| - 3] == body;
  }

  /** Text that is already clean and not fenced comes back unchanged. */
  lemma UnfencedUnchanged(t: string)
    requires Clean(t) && !(StartsWith(t, Fence) && EndsWith(t, Fence))
    ensures CleanGenerated(t) == t
  {
    TrimPadded([], t, []);
    assert [] + t + [] == t;
  }

  /** The cleanup of a generated problem: exactly "```json\n" in front and
      "\n```" behind are cut off, with no trimming, and only when both are
      present. */
  function StripJsonFence(text: string): (r: string)
    ensures StartsWith(text, JsonFenceOpen) && EndsWith(text, JsonFenceClose) && |text| >= 12 ==>
              r == text[8..|text| - 4]
    ensures StartsWith(text, JsonFenceOpen) && EndsWith(text, JsonFenceClose) && |text| < 12 ==> r == []
    ensures !(StartsWith(text, JsonFenceOpen) && EndsWith(text, JsonFenceClose)) ==> r == text
  {
    if StartsWith(text, JsonFenceOpen) && EndsWith(text, JsonFenceClose) then JsSlice(text, 8, -4)
    else text
  }

  /** Wrapping a body in the JSON fence and stripping it gives the body back. */
  lemma JsonFenceRoundTrip(body: string)
    ensures StripJsonFence(JsonFenceOpen + body + JsonFenceClose) == body
  {
    var s := JsonFenceOpen + body + JsonFenceClose;
    assert s[..8] == JsonFenceOpen;
    assert s[|s| - 4..] == JsonFenceClose;
    assert s[8..|s| - 4] == body;
  }

  /** The two fences can only overlap in the 11-character text "```json\n```",
      the one short text that becomes empty. */
  lemma ShortJsonFence(text: string)
    requires StartsWith(text, JsonFenceOpen) && EndsWith(text, JsonFenceClose) && |text| < 12
    ensures text == "```json\n```"
  {
    assert text[..8] == JsonFenceOpen;
    assert text[4] == 's' && text[5] == 'o' && text[6] == 'n';
    assert text[|text| - 4..] == JsonFenceClose;
    assert text[|text| - 4] == '\n';
    assert |text| == 11;
    assert text[8..] == text[|text| - 3..];
    assert text == text[..8] + text[8..];
  }
}
