/** The site the client talks to and how it names its pages. */
module Site {
  import opened Optional

  /** `TildesAPI.baseURL` */
  const BaseUrl: string := "https://tildes.net"

  /** `segments.reduce(into: URL(string: baseURL)!) { $0.appendPathComponent($1) }` */
  function PageUrl(segments: seq<string>): (r: string)
    ensures |segments| > 0 ==> |r| > |BaseUrl|
    ensures |r| >= |BaseUrl| && r[..|BaseUrl|] == BaseUrl
    decreases |segments|
  {
    if |segments| == 0 then BaseUrl
    else PageUrl(segments[..|segments| - 1]) + "/" + segments[|segments| - 1]
  }

  /**
   * The referrer of an action on a topic or on one of its comments: the
   * topic's page when both the topic id and its group are known and
   * non-empty, the site root otherwise.
   */
  function TopicReferrer(topicId: string, group: Option<string>): (r: string)
    ensures r == BaseUrl <==> topicId == "" || group.None? || group.value == ""
    ensures r != BaseUrl ==> r == BaseUrl + "/" + group.value + "/" + topicId
  {
    if topicId == "" || group.None? || group.value == "" then BaseUrl
    else
      assert [group.value, topicId][..1] == [group.value];
      assert [group.value][..0] == [];
      assert PageUrl([group.value]) == BaseUrl + "/" + group.value;
      assert PageUrl([group.value, topicId]) == BaseUrl + "/" + group.value + "/" + topicId;
      PageUrl([group.value, topicId])
  }

  /** Appending one more path component. */
  lemma PageUrlSnoc(segments: seq<string>, last: string)
    ensures PageUrl(segments + [last]) == PageUrl(segments) + "/" + last
  {
    assert (segments + [last])[..|segments|] == segments;
  }

  /** A path of components is the site address followed by `/component` for each one, in order. */
  lemma PageUrlSpelled(a: string, b: string, c: string, d: string, e: string)
    ensures PageUrl([a]) == BaseUrl + "/" + a
    ensures PageUrl([a, b]) == BaseUrl + "/" + a + "/" + b
    ensures PageUrl([a, b, c, d]) == BaseUrl + "/" + a + "/" + b + "/" + c + "/" + d
    ensures PageUrl([a, b, c, d, e]) == BaseUrl + "/" + a + "/" + b + "/" + c + "/" + d + "/" + e
  {
    PageUrlSnoc([], a);
    PageUrlSnoc([a], b);
    PageUrlSnoc([a, b], c);
    PageUrlSnoc([a, b, c], d);
    PageUrlSnoc([a, b, c, d], e);
    assert [] + [a] == [a];
    assert [a] + [b] == [a, b];
    assert [a, b] + [c] == [a, b, c];
    assert [a, b, c] + [d] == [a, b, c, d];
    assert [a, b, c, d] + [e] == [a, b, c, d, e];
  }
}
