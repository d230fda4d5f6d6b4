/**
 * The video-id extraction of YouTubeProvider::fixBinaryContent: the start-anchored pattern
 *
 *   (https?://)? (www.)? (m.)? ( youtu.be/ | youtube.com/ ( (watch)? ? (.*&)? v(i)?= | (embed|v|vi|user)/ ) ) ID
 *
 * where ID is `[^#?&'>]+`. Inputs are byte strings; each char stands for one byte.
 *
 * Two descriptions are given and related:
 *  - a grammar (ghost predicates `IsLeadIn` and friends) that says which prefixes of the input the
 *    pattern can consume before the id, one disjunct per optional group or alternative;
 *  - a deterministic matcher (`LeadEnd`) that does what a backtracking engine does: optional groups
 *    are tried taken first, and `(.*&)?` tries the rightmost `&` first.
 * `LeadEndSound` and `LeadEndLongest` prove that the matcher picks the longest lead-in the grammar
 * accepts that is followed by at least one id byte.
 */
module ReferencePattern {
  import opened Wrappers

  /** The length of a canonical reference; content of exactly this length is never rewritten. */
  const ReferenceLength: nat := 11

  /** Bytes the id group `[^#?&'>]` accepts. */
  predicate IsIdChar(c: char) {
    c != '#' && c != '?' && c != '&' && c != '\'' && c != '>'
  }

  predicate IsIdRun(id: string) {
    forall j :: 0 <= j < |id| ==> IsIdChar(id[j])
  }

  /** `part` occurs somewhere in `s`. */
  predicate IsSubstring(part: string, s: string) {
    exists i :: 0 <= i <= |s| && part <= s[i..]
  }

  /** `lit` occurs in `s` at position `i`. */
  predicate StartsWithAt(s: string, i: nat, lit: string) {
    i + |lit| <= |s| && forall j :: 0 <= j < |lit| ==> s[i + j] == lit[j]
  }

  // ---------------------------------------------------------------------------------------------
  // The grammar: which slices s[i..n] each part of the pattern can consume.
  // ---------------------------------------------------------------------------------------------


  /** `(?:.*&)?` consumes `s[i..j]`: nothing, or a line without newline ending in `&`. */
  ghost predicate IsFreeText(s: string, i: nat, j: nat) {
    i <= j <= |s| &&
    (i == j || (s[j - 1] == '&' && forall t :: i <= t < j ==> s[t] != '\n'))
  }

  /** `(?:.*&)?v(?:i)?=` consumes `s[i..n]`. */
  ghost predicate IsQueryLead(s: string, i: nat, n: nat) {
    (i + 2 <= n && StartsWithAt(s, n - 2, "v=") && IsFreeText(s, i, n - 2)) ||
    (i + 3 <= n && StartsWithAt(s, n - 3, "vi=") && IsFreeText(s, i, n - 3))
  }

  /** What may follow `youtube.com/`, ending right before the id. */
  ghost predicate IsVideoPath(s: string, i: nat, n: nat) {
    (StartsWithAt(s, i, "?") && i + 1 <= n && IsQueryLead(s, i + 1, n)) ||
    (StartsWithAt(s, i, "watch?") && i + 6 <= n && IsQueryLead(s, i + 6, n)) ||
    (StartsWithAt(s, i, "embed/") && n == i + 6) ||
    (StartsWithAt(s, i, "v/") && n == i + 2) ||
    (StartsWithAt(s, i, "vi/") && n == i + 3) ||
    (StartsWithAt(s, i, "user/") && n == i + 5)
  }

  ghost predicate IsSiteLead(s: string, i: nat, n: nat) {
    (StartsWithAt(s, i, "youtu.be/") && n == i + 9) ||
    (StartsWithAt(s, i, "youtube.com/") && i + 12 <= n && IsVideoPath(s, i + 12, n))
  }

  /** `(?:m\.)?` then the site. */
  ghost predicate IsMobileLayer(s: string, i: nat, n: nat) {
    IsSiteLead(s, i, n) || (StartsWithAt(s, i, "m.") && i + 2 <= n && IsSiteLead(s, i + 2, n))
  }

  /** `(?:www\.)?` then the rest. */
  ghost predicate IsWwwLayer(s: string, i: nat, n: nat) {
    IsMobileLayer(s, i, n) || (StartsWithAt(s, i, "www.") && i + 4 <= n && IsMobileLayer(s, i + 4, n))
  }

  /** `(?:https?://)?` then the rest. */
  ghost predicate IsSchemeLayer(s: string, i: nat, n: nat) {
    IsWwwLayer(s, i, n) ||
    (StartsWithAt(s, i, "http://") && i + 7 <= n && IsWwwLayer(s, i + 7, n)) ||
    (StartsWithAt(s, i, "https://") && i + 8 <= n && IsWwwLayer(s, i + 8, n))
  }

  /** The pattern, anchored at the start, can consume `s[..n]` before the id group. */
  ghost predicate IsLeadIn(s: string, n: nat) {
    n <= |s| && IsSchemeLayer(s, 0, n)
  }

  /** The whole pattern matches with the id group starting at `n` (the group needs one byte at least). */
  ghost predicate MatchesAt(s: string, n: nat) {
    IsLeadIn(s, n) && n < |s| && IsIdChar(s[n])
  }

  // ---------------------------------------------------------------------------------------------
  // The matcher.
  // ---------------------------------------------------------------------------------------------

  /** Consumes the optional literal `lit` at `i` when it is there. */
  function SkipOptional(s: string, i: nat, lit: string): (r: nat)
    ensures r == i || (StartsWithAt(s, i, lit) && r == i + |lit|)
  {
    if StartsWithAt(s, i, lit) then i + |lit| else i
  }

  /** Position after `(?:https?://)?(?:www\.)?(?:m\.)?`. */
  function HostEnd(s: string): nat {
    var afterScheme := if StartsWithAt(s, 0, "http://") then 7 else SkipOptional(s, 0, "https://");
    SkipOptional(s, SkipOptional(s, afterScheme, "www."), "m.")
  }

  /** `v(?:i)?=` at `i`, followed by at least one id byte: the position of that byte. */
  function KeyEnd(s: string, i: nat): (r: Option<nat>)
    ensures r.Some? ==> r.value < |s| && IsIdChar(s[r.value])
    ensures r.Some? ==> (r.value == i + 2 && StartsWithAt(s, i, "v=")) || (r.value == i + 3 && StartsWithAt(s, i, "vi="))
  {
    if StartsWithAt(s, i, "vi=") && i + 3 < |s| && IsIdChar(s[i + 3]) then Some(i + 3)
    else if StartsWithAt(s, i, "v=") && i + 2 < |s| && IsIdChar(s[i + 2]) then Some(i + 2)
    else None
  }

  /** The first newline at or after `i`, or the end of `s`: how far `.*` can reach from `i`. */
  function LineEnd(s: string, i: nat): (r: nat)
    requires i <= |s|
    ensures i <= r <= |s|
    ensures forall t :: i <= t < r ==> s[t] != '\n'
    ensures r == |s| || s[r] == '\n'
    decreases |s| - i
  {
    if i == |s| || s[i] == '\n' then i else LineEnd(s, i + 1)
  }

  /**
   * Tries the `&` positions `j - 1` for `i < j <= k`, rightmost first, as the greedy `.*&` does;
   * the first one followed by a key and an id byte wins.
   */
  function LastKeyAfterAmp(s: string, i: nat, k: nat): (r: Option<nat>)
    requires i <= k <= |s|
    decreases k
  {
    if k <= i then None
    else if s[k - 1] == '&' && KeyEnd(s, k).Some? then KeyEnd(s, k)
    else LastKeyAfterAmp(s, i, k - 1)
  }

  /** `(?:.*&)?v(?:i)?=` from `i`: the rightmost working `&` first, else the key right at `i`. */
  function QueryLeadEnd(s: string, i: nat): Option<nat>
    requires i <= |s|
  {
    match LastKeyAfterAmp(s, i, LineEnd(s, i))
    case Some(n) => Some(n)
    case None => KeyEnd(s, i)
  }

  /** The end of the lead-in the matcher settles on, if the pattern matches at all. */
  function LeadEnd(s: string): Option<nat> {
    LeadEndFrom(s, HostEnd(s))
  }

  /** The alternatives after `youtube.com/`, the query form first. */
  function VideoPathEnd(s: string, p: nat): Option<nat>
    requires p <= |s|
  {
    if StartsWithAt(s, p, "?") then QueryLeadEnd(s, p + 1)
    else if StartsWithAt(s, p, "watch?") then QueryLeadEnd(s, p + 6)
    else if StartsWithAt(s, p, "embed/") then Some(p + 6)
    else if StartsWithAt(s, p, "v/") then Some(p + 2)
    else if StartsWithAt(s, p, "vi/") then Some(p + 3)
    else if StartsWithAt(s, p, "user/") then Some(p + 5)
    else None
  }

  /** The site and video-path alternatives from `h` on, then at least one id byte. */
  function LeadEndFrom(s: string, h: nat): Option<nat> {
    var pathEnd :=
      if StartsWithAt(s, h, "youtu.be/") then Some(h + 9)
      else if StartsWithAt(s, h, "youtube.com/") then VideoPathEnd(s, h + 12)
      else None;
    match pathEnd
    case Some(n) => if n < |s| && IsIdChar(s[n]) then Some(n) else None
    case None => None
  }

  /** End of the longest run of id bytes starting at `n` (the greedy `[^#?&'>]+`). */
  function RunEnd(s: string, n: nat): (r: nat)
    requires n <= |s|
    ensures n <= r <= |s|
    ensures forall t :: n <= t < r ==> IsIdChar(s[t])
    ensures r == |s| || !IsIdChar(s[r])
    decreases |s| - n
  {
    if n < |s| && IsIdChar(s[n]) then RunEnd(s, n + 1) else n
  }

  /** The `video_id` capture of the pattern, if it matches. */
  function MatchVideoId(s: string): (r: Option<string>)
    ensures r.Some? ==> |r.value| > 0 && IsIdRun(r.value)
    ensures r.Some? ==> IsSubstring(r.value, s)
  {
    match LeadEnd(s)
    case Some(n) =>
      LeadEndSound(s);
      var id := s[n..RunEnd(s, n)];
      assert id <= s[n..];
      Some(id)
    case None => None
  }

  /** fixBinaryContent on non-null content: 11 bytes stay, a match is replaced by the id, anything else stays. */
  function Normalize(content: string): (r: string)
    ensures |content| == ReferenceLength ==> r == content
    ensures r == content || (|r| > 0 && IsIdRun(r))
    ensures IsSubstring(r, content)
  {
    assert content <= content[0..];
    if |content| == ReferenceLength then content
    else
      match MatchVideoId(content)
      case Some(id) => id
      case None => content
  }

  // ---------------------------------------------------------------------------------------------
  // Soundness: what the matcher settles on is a lead-in of the grammar.
  // ---------------------------------------------------------------------------------------------

  lemma {:induction false} LastKeyAfterAmpSound(s: string, i: nat, k: nat)
    requires i <= k <= |s|
    requires forall t :: i <= t < k ==> s[t] != '\n'
    ensures LastKeyAfterAmp(s, i, k).Some? ==>
      var n := LastKeyAfterAmp(s, i, k).value;
      n < |s| && IsIdChar(s[n]) && IsQueryLead(s, i, n)
    decreases k
  {
    if k <= i {
    } else if s[k - 1] == '&' && KeyEnd(s, k).Some? {
      assert IsFreeText(s, i, k);
    } else {
      LastKeyAfterAmpSound(s, i, k - 1);
    }
  }

  lemma QueryLeadEndSound(s: string, i: nat)
    requires i <= |s|
    ensures QueryLeadEnd(s, i).Some? ==>
      var n := QueryLeadEnd(s, i).value;
      n < |s| && IsIdChar(s[n]) && IsQueryLead(s, i, n)
  {
    LastKeyAfterAmpSound(s, i, LineEnd(s, i));
    if LastKeyAfterAmp(s, i, LineEnd(s, i)).None? && KeyEnd(s, i).Some? {
      assert IsFreeText(s, i, i);
    }
  }

  /** The position `HostEnd` reaches is one the three optional layers can consume up to. */
  lemma HostEndSound(s: string, n: nat)
    requires IsSiteLead(s, HostEnd(s), n)
    ensures IsSchemeLayer(s, 0, n)
  {
    var a := if StartsWithAt(s, 0, "http://") then 7 else SkipOptional(s, 0, "https://");
    var b := SkipOptional(s, a, "www.");
    assert IsMobileLayer(s, b, n);
    assert IsWwwLayer(s, a, n);
  }

  lemma LeadEndSound(s: string)
    ensures LeadEnd(s).Some? ==> MatchesAt(s, LeadEnd(s).value)
  {
    if LeadEnd(s).Some? {
      var n := LeadEnd(s).value;
      LeadEndFromSound(s, HostEnd(s));
      HostEndSound(s, n);
    }
  }

  /** What the matcher accepts from the host on is a site lead-in of the grammar, then an id byte. */
  lemma LeadEndFromSound(s: string, h: nat)
    requires LeadEndFrom(s, h).Some?
    ensures var n := LeadEndFrom(s, h).value; IsSiteLead(s, h, n) && n < |s| && IsIdChar(s[n])
  {
    var n := LeadEndFrom(s, h).value;
    if !StartsWithAt(s, h, "youtu.be/") {
      VideoPathSound(s, h + 12, n);
    }
  }

  /** What the matcher accepts after `youtube.com/` is a video path of the grammar. */
  lemma VideoPathSound(s: string, p: nat, n: nat)
    requires n < |s| && IsIdChar(s[n])
    requires StartsWithAt(s, p, "?") ==> QueryLeadEnd(s, p + 1) == Some(n)
    requires !StartsWithAt(s, p, "?") && StartsWithAt(s, p, "watch?") ==> QueryLeadEnd(s, p + 6) == Some(n)
    requires !StartsWithAt(s, p, "?") && !StartsWithAt(s, p, "watch?") ==>
      (StartsWithAt(s, p, "embed/") && n == p + 6) ||
      (!StartsWithAt(s, p, "embed/") && StartsWithAt(s, p, "v/") && n == p + 2) ||
      (!StartsWithAt(s, p, "embed/") && !StartsWithAt(s, p, "v/") && StartsWithAt(s, p, "vi/") && n == p + 3) ||
      (!StartsWithAt(s, p, "embed/") && !StartsWithAt(s, p, "v/") && !StartsWithAt(s, p, "vi/") && StartsWithAt(s, p, "user/") && n == p + 5)
    ensures IsVideoPath(s, p, n)
  {
    if StartsWithAt(s, p, "?") {
      QueryLeadEndSound(s, p + 1);
    } else if StartsWithAt(s, p, "watch?") {
      QueryLeadEndSound(s, p + 6);
    }
  }

  // ---------------------------------------------------------------------------------------------
  // Completeness: no lead-in of the grammar is longer than the one the matcher settles on.
  // ---------------------------------------------------------------------------------------------

  /** A literal found at `i` fixes the byte at each offset. */
  lemma LiteralAt(s: string, i: nat, lit: string, j: nat)
    requires j < |lit|
    ensures StartsWithAt(s, i, lit) ==> i + j < |s| && s[i + j] == lit[j]
  {
  }

  lemma SiteLeadFirstChar(s: string, i: nat, n: nat)
    ensures IsSiteLead(s, i, n) ==> i < |s| && s[i] == 'y'
  {
    LiteralAt(s, i, "youtu.be/", 0);
    LiteralAt(s, i, "youtube.com/", 0);
  }

  lemma MobileLayerFirstChar(s: string, i: nat, n: nat)
    ensures IsMobileLayer(s, i, n) ==> i < |s| && (s[i] == 'm' || s[i] == 'y')
  {
    SiteLeadFirstChar(s, i, n);
    LiteralAt(s, i, "m.", 0);
  }

  lemma WwwLayerFirstChar(s: string, i: nat, n: nat)
    ensures IsWwwLayer(s, i, n) ==> i < |s| && (s[i] == 'w' || s[i] == 'm' || s[i] == 'y')
  {
    MobileLayerFirstChar(s, i, n);
    LiteralAt(s, i, "www.", 0);
  }

  /** Each optional layer can only be skipped when its literal is absent, so `HostEnd` is forced. */
  lemma HostEndComplete(s: string, n: nat)
    requires IsSchemeLayer(s, 0, n)
    ensures IsSiteLead(s, HostEnd(s), n)
  {
    WwwLayerFirstChar(s, 0, n);
    LiteralAt(s, 0, "http://", 0);
    LiteralAt(s, 0, "https://", 0);
    LiteralAt(s, 0, "http://", 4);
    LiteralAt(s, 0, "https://", 4);
    var a := if StartsWithAt(s, 0, "http://") then 7 else SkipOptional(s, 0, "https://");
    assert IsWwwLayer(s, a, n);
    MobileLayerFirstChar(s, a, n);
    LiteralAt(s, a, "www.", 0);
    var b := SkipOptional(s, a, "www.");
    assert IsMobileLayer(s, b, n);
    SiteLeadFirstChar(s, b, n);
    LiteralAt(s, b, "m.", 0);
  }

  lemma {:induction false} LastKeyAfterAmpBounds(s: string, i: nat, k: nat)
    requires i <= k <= |s|
    ensures LastKeyAfterAmp(s, i, k).Some? ==> i + 3 <= LastKeyAfterAmp(s, i, k).value
    decreases k
  {
    if k > i && !(s[k - 1] == '&' && KeyEnd(s, k).Some?) {
      LastKeyAfterAmpBounds(s, i, k - 1);
    }
  }

  /** The rightmost-first search finds an `&` at `j - 1` or one further right. */
  lemma {:induction false} LastKeyAfterAmpLongest(s: string, i: nat, k: nat, j: nat)
    requires i < j <= k <= |s|
    requires s[j - 1] == '&' && KeyEnd(s, j).Some?
    ensures LastKeyAfterAmp(s, i, k).Some?
    ensures KeyEnd(s, j).value <= LastKeyAfterAmp(s, i, k).value
    decreases k
  {
    if !(s[k - 1] == '&' && KeyEnd(s, k).Some?) {
      LastKeyAfterAmpLongest(s, i, k - 1, j);
    }
  }

  /** `.*` from `i` reaches every position before which there is no newline. */
  lemma {:induction false} LineEndReaches(s: string, i: nat, j: nat)
    requires i <= j <= |s|
    requires forall t :: i <= t < j ==> s[t] != '\n'
    ensures j <= LineEnd(s, i)
    decreases j - i
  {
    if i < j {
      LineEndReaches(s, i + 1, j);
    }
  }

  /** A key the grammar places right before `n`, followed by an id byte, is what `KeyEnd` finds. */
  lemma KeyEndComplete(s: string, i: nat, n: nat) returns (j: nat)
    requires IsQueryLead(s, i, n) && n < |s| && IsIdChar(s[n])
    ensures IsFreeText(s, i, j) && KeyEnd(s, j) == Some(n)
  {
    if i + 3 <= n && StartsWithAt(s, n - 3, "vi=") && IsFreeText(s, i, n - 3) {
      j := n - 3;
    } else {
      j := n - 2;
      LiteralAt(s, j, "v=", 1);
      LiteralAt(s, j, "vi=", 1);
    }
  }

  lemma QueryLeadEndComplete(s: string, i: nat, n: nat)
    requires i <= |s|
    requires IsQueryLead(s, i, n) && n < |s| && IsIdChar(s[n])
    ensures QueryLeadEnd(s, i).Some? && n <= QueryLeadEnd(s, i).value
  {
    var j := KeyEndComplete(s, i, n);
    var e := LineEnd(s, i);
    if j == i {
      LastKeyAfterAmpBounds(s, i, e);
    } else {
      LineEndReaches(s, i, j);
      LastKeyAfterAmpLongest(s, i, e, j);
    }
  }

  /** After `youtube.com/`, the grammar's video path is never longer than what the matcher takes. */
  lemma VideoPathComplete(s: string, p: nat, n: nat)
    requires p <= |s|
    requires IsVideoPath(s, p, n) && n < |s| && IsIdChar(s[n])
    ensures VideoPathEnd(s, p).Some? && n <= VideoPathEnd(s, p).value
    ensures VideoPathEnd(s, p).value < |s| && IsIdChar(s[VideoPathEnd(s, p).value])
  {
    LiteralAt(s, p, "?", 0);
    LiteralAt(s, p, "watch?", 0);
    LiteralAt(s, p, "embed/", 0);
    LiteralAt(s, p, "v/", 0);
    LiteralAt(s, p, "vi/", 0);
    LiteralAt(s, p, "user/", 0);
    LiteralAt(s, p, "v/", 1);
    LiteralAt(s, p, "vi/", 1);
    if StartsWithAt(s, p, "?") {
      QueryLeadEndComplete(s, p + 1, n);
      QueryLeadEndSound(s, p + 1);
    } else if StartsWithAt(s, p, "watch?") {
      QueryLeadEndComplete(s, p + 6, n);
      QueryLeadEndSound(s, p + 6);
    }
  }

  /** After the host, the grammar's site lead-in is never longer than what the matcher takes. */
  lemma SiteLeadComplete(s: string, h: nat, n: nat)
    requires IsSiteLead(s, h, n) && n < |s| && IsIdChar(s[n])
    ensures LeadEndFrom(s, h).Some? && n <= LeadEndFrom(s, h).value
  {
    LiteralAt(s, h, "youtu.be/", 5);
    LiteralAt(s, h, "youtube.com/", 5);
    if !StartsWithAt(s, h, "youtu.be/") {
      VideoPathComplete(s, h + 12, n);
    }
  }

  /**
   * The matcher finds a match whenever the pattern can match, and its lead-in is the longest
   * one the grammar accepts: the greedy `(?:.*&)?` takes the last `&v=` or `&vi=` that has an
   * id after it.
   */
  lemma LeadEndLongest(s: string, n: nat)
    requires MatchesAt(s, n)
    ensures LeadEnd(s).Some? && n <= LeadEnd(s).value
  {
    HostEndComplete(s, n);
    SiteLeadComplete(s, HostEnd(s), n);
  }

  // ---------------------------------------------------------------------------------------------
  // What the capture is.
  // ---------------------------------------------------------------------------------------------

  /** `n` is where the pattern's longest lead-in ends: the match a backtracking engine reports. */
  ghost predicate IsLongestMatch(s: string, n: nat) {
    MatchesAt(s, n) && forall m: nat :: MatchesAt(s, m) ==> m <= n
  }

  /** `id` is the longest run of id bytes that starts at `n`. */
  ghost predicate IsMaximalRunAt(s: string, n: nat, id: string) {
    n + |id| <= |s| && s[n..n + |id|] == id && IsIdRun(id) &&
    (n + |id| == |s| || !IsIdChar(s[n + |id|]))
  }

  /**
   * The capture exists exactly when the pattern can match at all, and it is the maximal id run
   * after the longest lead-in.
   */
  lemma MatchVideoIdCorrect(s: string)
    ensures MatchVideoId(s).None? <==> forall n: nat :: !MatchesAt(s, n)
    ensures MatchVideoId(s).Some? ==>
      exists n: nat :: IsLongestMatch(s, n) && IsMaximalRunAt(s, n, MatchVideoId(s).value)
  {
    LeadEndSound(s);
    forall n: nat | MatchesAt(s, n) ensures LeadEnd(s).Some? && n <= LeadEnd(s).value {
      LeadEndLongest(s, n);
    }
    if LeadEnd(s).Some? {
      var n := LeadEnd(s).value;
      assert IsLongestMatch(s, n);
      assert IsMaximalRunAt(s, n, s[n..RunEnd(s, n)]);
    }
  }

  /** Two lead-ins of the same input: the longer one has an `&` beyond the end of the shorter one. */
  lemma LongerLeadInHasAmp(s: string, m: nat, n: nat) returns (t: nat)
    requires IsLeadIn(s, m) && IsLeadIn(s, n) && m < n
    ensures m <= t < n && s[t] == '&'
  {
    HostEndComplete(s, m);
    HostEndComplete(s, n);
    var h := HostEnd(s);
    LiteralAt(s, h, "youtu.be/", 5);
    LiteralAt(s, h, "youtube.com/", 5);
    var r := VideoPathsShareQuery(s, h + 12, m, n);
    t := QueryLeadsAmp(s, r, m, n);
  }

  /** Two video paths of different lengths from the same place are both query lead-ins. */
  lemma VideoPathsShareQuery(s: string, p: nat, m: nat, n: nat) returns (r: nat)
    requires n <= |s| && IsVideoPath(s, p, m) && IsVideoPath(s, p, n) && m < n
    ensures IsQueryLead(s, r, m) && IsQueryLead(s, r, n)
  {
    LiteralAt(s, p, "?", 0);
    LiteralAt(s, p, "watch?", 0);
    LiteralAt(s, p, "embed/", 0);
    LiteralAt(s, p, "v/", 0);
    LiteralAt(s, p, "vi/", 0);
    LiteralAt(s, p, "user/", 0);
    LiteralAt(s, p, "v/", 1);
    LiteralAt(s, p, "vi/", 1);
    r := if StartsWithAt(s, p, "?") then p + 1 else p + 6;
  }

  lemma QueryLeadsAmp(s: string, r: nat, m: nat, n: nat) returns (t: nat)
    requires n <= |s|
    requires IsQueryLead(s, r, m) && IsQueryLead(s, r, n) && m < n
    ensures m <= t < n && s[t] == '&'
  {
    var jm := if UsesViKey(s, r, m) then m - 3 else m - 2;
    var jn := if UsesViKey(s, r, n) then n - 3 else n - 2;
    LiteralAt(s, jm, "v=", 0);
    LiteralAt(s, jm, "v=", 1);
    LiteralAt(s, jm, "vi=", 0);
    LiteralAt(s, jm, "vi=", 1);
    LiteralAt(s, jm, "vi=", 2);
    LiteralAt(s, jn, "v=", 1);
    LiteralAt(s, jn, "vi=", 1);
    t := jn - 1;
  }

  /** The grammar's query lead-in ending at `n` uses the key `vi=`. */
  ghost predicate UsesViKey(s: string, r: nat, n: nat) {
    r + 3 <= n && StartsWithAt(s, n - 3, "vi=") && IsFreeText(s, r, n - 3)
  }

  /**
   * Every accepted URL shape yields its id: when the input is a lead-in, a maximal run of id bytes,
   * and no `&` after the lead-in, the capture is that run.
   */
  lemma ExtractsIdAfterLeadIn(s: string, n: nat, id: string)
    requires IsLeadIn(s, n) && |id| > 0 && IsMaximalRunAt(s, n, id)
    requires forall t :: n <= t < |s| ==> s[t] != '&'
    ensures MatchVideoId(s) == Some(id)
  {
    assert s[n] == id[0];
    LeadEndLongest(s, n);
    LeadEndSound(s);
    var m := LeadEnd(s).value;
    if n < m {
      var t := LongerLeadInHasAmp(s, n, m);
    }
    RunEndOfMaximalRun(s, n, id);
  }

  /** The run the matcher captures at `n` is the maximal one. */
  lemma RunEndOfMaximalRun(s: string, n: nat, id: string)
    requires IsMaximalRunAt(s, n, id)
    ensures RunEnd(s, n) == n + |id|
    ensures s[n..RunEnd(s, n)] == id
  {
  }

  // ---------------------------------------------------------------------------------------------
  // Normalisation.
  // ---------------------------------------------------------------------------------------------

  /** A literal between two strings is found right after the first. */
  lemma LiteralBetween(a: string, lit: string, t: string)
    ensures StartsWithAt(a + lit + t, |a|, lit)
  {
  }

  /** Every lead-in contains a `/`: after `youtu.be` or after `youtube.com`. */
  lemma LeadInHasSlash(s: string, n: nat) returns (t: nat)
    requires IsLeadIn(s, n)
    ensures t < n && s[t] == '/'
  {
    HostEndComplete(s, n);
    var h := HostEnd(s);
    LiteralAt(s, h, "youtu.be/", 8);
    LiteralAt(s, h, "youtube.com/", 11);
    t := if StartsWithAt(s, h, "youtu.be/") then h + 8 else h + 11;
  }

  /** Content without a `/` cannot match the pattern, so normalisation leaves it alone. */
  lemma NormalizeKeepsSlashless(content: string)
    requires forall t :: 0 <= t < |content| ==> content[t] != '/'
    ensures Normalize(content) == content
  {
    LeadEndSound(content);
    if LeadEnd(content).Some? {
      var t := LeadInHasSlash(content, LeadEnd(content).value);
    }
  }

  /** Normalising twice changes nothing when the first result has no `/` (ids normally have none). */
  lemma NormalizeIdempotent(content: string)
    requires forall t :: 0 <= t < |Normalize(content)| ==> Normalize(content)[t] != '/'
    ensures Normalize(Normalize(content)) == Normalize(content)
  {
    NormalizeKeepsSlashless(Normalize(content));
  }

  /** An input made of `lead`, which the grammar accepts, and an id with nothing after it. */
  lemma ExtractsIdAfterLiteralLead(lead: string, id: string)
    requires |id| > 0 && IsIdRun(id) && |lead + id| != ReferenceLength
    requires IsLeadIn(lead + id, |lead|)
    ensures Normalize(lead + id) == id
  {
    var s := lead + id;
    assert s[|lead|..|lead| + |id|] == id;
    forall t | |lead| <= t < |s| ensures s[t] != '&' {
      assert s[t] == id[t - |lead|];
    }
    ExtractsIdAfterLeadIn(s, |lead|, id);
  }

  /** `https://www.youtube.com/watch?v=` followed by an id normalises to the id. */
  lemma NormalizeWatchUrl(id: string)
    requires |id| > 0 && IsIdRun(id)
    ensures Normalize("https://www.youtube.com/watch?v=" + id) == id
  {
    WatchUrlLeadIn(id);
    ExtractsIdAfterLiteralLead("https://www.youtube.com/watch?v=", id);
  }

  lemma WatchUrlLeadIn(id: string)
    ensures IsLeadIn("https://www.youtube.com/watch?v=" + id, 32)
  {
    WatchLeadIn("https://", "www.", "youtube.com/", "watch?", "v=", id);
    WatchUrlPieces(id);
  }

  lemma WatchUrlPieces(id: string)
    ensures "https://" + "www." + "youtube.com/" + "watch?" + "v=" + id == "https://www.youtube.com/watch?v=" + id
  {
  }

  /** The lead-in of a full watch URL, `https://www.youtube.com/watch?v=`, read piece by piece. */
  lemma WatchLeadIn(a: string, b: string, c: string, d: string, e: string, rest: string)
    requires a == "https://" && b == "www." && c == "youtube.com/" && d == "watch?" && e == "v="
    ensures IsLeadIn(a + b + c + d + e + rest, 32)
  {
    var s := a + b + c + d + e + rest;
    PiecesAt(a, b, c, d, e, rest);
    assert IsQueryLead(s, 30, 32);
    assert IsVideoPath(s, 24, 32);
    assert IsSiteLead(s, 12, 32);
  }

  /** Where each of five consecutive pieces of a string starts. */
  lemma PiecesAt(a: string, b: string, c: string, d: string, e: string, rest: string)
    ensures var s := a + b + c + d + e + rest;
      StartsWithAt(s, 0, a) && StartsWithAt(s, |a|, b) && StartsWithAt(s, |a| + |b|, c) &&
      StartsWithAt(s, |a| + |b| + |c|, d) && StartsWithAt(s, |a| + |b| + |c| + |d|, e)
  {
  }

  /** Where each of three consecutive pieces of a string starts. */
  lemma ThreePiecesAt(a: string, b: string, c: string, rest: string)
    ensures var s := a + b + c + rest;
      StartsWithAt(s, 0, a) && StartsWithAt(s, |a|, b) && StartsWithAt(s, |a| + |b|, c)
  {
  }

  /** A watch URL with other parameters before `&v=` normalises to the id. */
  lemma NormalizeWatchUrlWithParameters(params: string, id: string)
    requires |id| > 0 && IsIdRun(id)
    requires forall t :: 0 <= t < |params| ==> params[t] != '\n'
    ensures Normalize("youtube.com/watch?" + params + "&v=" + id) == id
  {
    ParametersLeadIn("youtube.com/", "watch?", params, "&", "v=", id);
    ParametersUrlPieces(params, id);
    ExtractsIdAfterLiteralLead("youtube.com/watch?" + params + "&v=", id);
  }

  /** The lead-in `youtube.com/watch?` + parameters + `&v=`, read piece by piece. */
  lemma ParametersLeadIn(c: string, d: string, params: string, amp: string, e: string, rest: string)
    requires c == "youtube.com/" && d == "watch?" && amp == "&" && e == "v="
    requires forall t :: 0 <= t < |params| ==> params[t] != '\n'
    ensures IsLeadIn(c + d + params + amp + e + rest, 18 + |params| + 3)
  {
    var s := c + d + params + amp + e + rest;
    var j := 18 + |params| + 1;
    PiecesAt(c, d, params, amp, e, rest);
    assert IsFreeText(s, 18, j) by {
      forall t | 18 <= t < j ensures s[t] != '\n' {
        if t < j - 1 { assert s[18 + (t - 18)] == params[t - 18]; }
      }
    }
    assert IsQueryLead(s, 18, j + 2);
    assert IsVideoPath(s, 12, j + 2);
    assert IsSiteLead(s, 0, j + 2);
  }

  lemma ParametersUrlPieces(params: string, id: string)
    ensures "youtube.com/" + "watch?" + params + "&" + "v=" + id == "youtube.com/watch?" + params + "&v=" + id
  {
  }

  /** `youtu.be/` followed by an id normalises to the id. */
  lemma NormalizeShortLink(id: string)
    requires |id| > 0 && IsIdRun(id) && |id| != 2
    ensures Normalize("youtu.be/" + id) == id
  {
    var s := "youtu.be/" + id;
    assert s == "" + "youtu.be/" + id;
    LiteralBetween("", "youtu.be/", id);
    assert IsSchemeLayer(s, 0, 9);
    ExtractsIdAfterLiteralLead("youtu.be/", id);
  }

  /** `www.youtube.com/embed/` followed by an id normalises to the id. */
  lemma NormalizeEmbedUrl(id: string)
    requires |id| > 0 && IsIdRun(id)
    ensures Normalize("www.youtube.com/embed/" + id) == id
  {
    EmbedLeadIn("www.", "youtube.com/", "embed/", id);
    EmbedUrlPieces(id);
    ExtractsIdAfterLiteralLead("www.youtube.com/embed/", id);
  }

  /** The lead-in `www.youtube.com/embed/`, read piece by piece. */
  lemma EmbedLeadIn(a: string, b: string, c: string, rest: string)
    requires a == "www." && b == "youtube.com/" && c == "embed/"
    ensures IsLeadIn(a + b + c + rest, 22)
  {
    var s := a + b + c + rest;
    ThreePiecesAt(a, b, c, rest);
    assert IsSiteLead(s, 4, 22);
  }

  lemma EmbedUrlPieces(id: string)
    ensures "www." + "youtube.com/" + "embed/" + id == "www.youtube.com/embed/" + id
  {
  }

  /**
   * Normalisation is not idempotent in general: an id may itself look like a URL (`/` is an id
   * byte), and a second pass extracts again.
   */
  lemma NormalizeNotIdempotent()
    ensures Normalize("youtu.be/" + "youtu.be/x") == "youtu.be/x"
    ensures Normalize("youtu.be/" + "x") == "x"
  {
    var id := "youtu.be/x";
    assert IsIdRun(id) by {
      forall j | 0 <= j < |id| ensures IsIdChar(id[j]) {
        assert id[j] in "youtu.be/x";
      }
    }
    NormalizeShortLink(id);
    NormalizeShortLink("x");
  }
}
