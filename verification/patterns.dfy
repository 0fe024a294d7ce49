/**
 * The two regular expressions the extractors apply to attribute values,
 * written out as leftmost-first matchers.
 */
module Patterns {
  import opened Optional
  import opened Text

  const TopicPrefix: string := "topic-"

  predicate NotNewline(c: char) { !IsNewline(c) }

  /** Position of the first occurrence of `sub` in `s`, if there is one. */
  function FirstOccurrence(s: string, sub: string): (r: Option<nat>)
    ensures r.None? <==> !Contains(s, sub)
    ensures r.Some? ==> r.value + |sub| <= |s| && s[r.value..r.value + |sub|] == sub
    ensures r.Some? ==> forall j | 0 <= j < r.value :: !HasPrefix(s[j..], sub)
    decreases |s|
  {
    if HasPrefix(s, sub) then Some(0)
    else if |s| == 0 then None
    else match FirstOccurrence(s[1..], sub)
      case None => None
      case Some(i) =>
        assert forall j | 1 <= j < i + 1 :: s[j..] == s[1..][j - 1..];
        Some(i + 1)
  }

  /**
   * The capture of `firstMatch(of: /topic-(.*)/)`: whatever follows the first
   * occurrence of `topic-`, up to the first line terminator after it or the
   * end of the text.
   */
  function TopicId(s: string): (r: Option<string>)
    ensures r.None? <==> !Contains(s, TopicPrefix)
    ensures r.Some? ==>
      var i := FirstOccurrence(s, TopicPrefix).value + |TopicPrefix|;
      && i + |r.value| <= |s| && r.value == s[i..i + |r.value|]
      && (i + |r.value| == |s| || IsNewline(s[i + |r.value|]))
    ensures r.Some? ==> forall k | 0 <= k < |r.value| :: !IsNewline(r.value[k])
  {
    match FirstOccurrence(s, TopicPrefix)
    case None => None
    case Some(at) =>
      var rest := s[at + |TopicPrefix|..];
      Some(rest[..RunLength(rest, NotNewline)])
  }

  /** The `id` attribute the site gives a topic's article. */
  lemma TopicIdOfAttribute(id: string)
    requires forall k | 0 <= k < |id| :: !IsNewline(id[k])
    ensures TopicId(TopicPrefix + id) == Some(id)
  {
    var s := TopicPrefix + id;
    assert HasPrefix(s, TopicPrefix);
    assert s[|TopicPrefix|..] == id;
    RunLengthOf(id, NotNewline, |id|);
    assert RunLength(id, NotNewline) == |id|;
    assert id[..|id|] == id;
    assert TopicId(s) == Some(id[..RunLength(id, NotNewline)]);
  }

  /** The character class `[a-zA-Z\.\-_]` of a group name after its `~`. */
  predicate IsGroupChar(c: char) { IsAsciiLetter(c) || c == '.' || c == '-' || c == '_' }

  /** A group name as the site writes it: `~` followed by one or more group-name characters. */
  predicate IsGroupName(g: string)
  {
    |g| >= 2 && g[0] == '~' && forall k | 1 <= k < |g| :: IsGroupChar(g[k])
  }

  /** A topic or comment id as the site writes it: one or more ASCII letters and digits. */
  predicate IsPostId(p: string)
  {
    |p| > 0 && forall k | 0 <= k < |p| :: IsAsciiAlphanumeric(p[k])
  }

  /**
   * `/(~[a-zA-Z\.\-_]+)\/([a-zA-Z0-9]+)/` tried at the first character of `s`.
   * Both classes exclude `/`, so the greedy group name can only be followed by
   * the slash when it is taken in full; no backtracking is ever needed.
   */
  function GroupAndPostAt(s: string): (r: Option<(string, string)>)
  {
    if |s| > 0 && s[0] == '~' then
      var g := 1 + RunLength(s[1..], IsGroupChar);
      if g > 1 && g < |s| && s[g] == '/' then
        var p := RunLength(s[g + 1..], IsAsciiAlphanumeric);
        if p > 0 then Some((s[..g], s[g + 1..g + 1 + p])) else None
      else None
    else None
  }

  /**
   * `s.firstMatch(of: /(~[a-zA-Z\.\-_]+)\/([a-zA-Z0-9]+)/)?.output` as the pair
   * of captures (group with its `~`, post id).
   */
  function GroupAndPost(s: string): (r: Option<(string, string)>)
    ensures r.Some? ==> |r.value.0| >= 2 && r.value.0[0] == '~'
    ensures r.Some? ==> forall k | 1 <= k < |r.value.0| :: IsGroupChar(r.value.0[k])
    ensures r.Some? ==> |r.value.1| > 0 && forall k | 0 <= k < |r.value.1| :: IsAsciiAlphanumeric(r.value.1[k])
    ensures (forall k | 0 <= k < |s| :: s[k] != '~') ==> r.None?
    decreases |s|
  {
    match GroupAndPostAt(s)
    case Some(m) => Some(m)
    case None => if |s| == 0 then None else GroupAndPost(s[1..])
  }

  /**
   * A link of the site's shape `…/~group/post…` yields exactly that group and
   * post, whatever tilde-free prefix precedes it and whatever non-alphanumeric
   * suffix follows.
   */
  lemma {:induction false} GroupAndPostOfLink(prefix: string, group: string, post: string, suffix: string)
    requires forall k | 0 <= k < |prefix| :: prefix[k] != '~'
    requires |group| > 0 && forall k | 0 <= k < |group| :: IsGroupChar(group[k])
    requires |post| > 0 && forall k | 0 <= k < |post| :: IsAsciiAlphanumeric(post[k])
    requires |suffix| == 0 || !IsAsciiAlphanumeric(suffix[0])
    ensures GroupAndPost(prefix + "~" + group + "/" + post + suffix) == Some(("~" + group, post))
    decreases |prefix|
  {
    var s := prefix + "~" + group + "/" + post + suffix;
    if |prefix| == 0 {
      assert s == "~" + group + "/" + post + suffix;
      GroupAndPostAtLink(group, post, suffix);
    } else {
      assert s[0] != '~';
      assert GroupAndPostAt(s).None?;
      assert s[1..] == prefix[1..] + "~" + group + "/" + post + suffix;
      GroupAndPostOfLink(prefix[1..], group, post, suffix);
    }
  }

  lemma GroupAndPostAtLink(group: string, post: string, suffix: string)
    requires |group| > 0 && forall k | 0 <= k < |group| :: IsGroupChar(group[k])
    requires |post| > 0 && forall k | 0 <= k < |post| :: IsAsciiAlphanumeric(post[k])
    requires |suffix| == 0 || !IsAsciiAlphanumeric(suffix[0])
    ensures GroupAndPostAt("~" + group + "/" + post + suffix) == Some(("~" + group, post))
  {
    var s := "~" + group + "/" + post + suffix;
    var g := 1 + |group|;
    LinkPieces(group, post, suffix);
    GroupRunOfLink(group, post, suffix);
    RunLengthOf(s[g + 1..], IsAsciiAlphanumeric, |post|);
  }

  /** Where the pieces of `~group/post…` sit. */
  lemma LinkPieces(group: string, post: string, suffix: string)
    ensures var s := "~" + group + "/" + post + suffix;
      var g := 1 + |group|;
      && |s| > g && s[0] == '~' && s[g] == '/'
      && s[1..] == group + ("/" + post + suffix)
      && s[g + 1..] == post + suffix
      && s[..g] == "~" + group
      && g + 1 + |post| <= |s| && s[g + 1..g + 1 + |post|] == post
  {
  }

  /** The group-name run after the `~` stops exactly at the slash. */
  lemma GroupRunOfLink(group: string, post: string, suffix: string)
    requires forall k | 0 <= k < |group| :: IsGroupChar(group[k])
    ensures RunLength(group + ("/" + post + suffix), IsGroupChar) == |group|
  {
    var t := group + ("/" + post + suffix);
    assert t[|group|] == '/';
    RunLengthOf(t, IsGroupChar, |group|);
  }
}
