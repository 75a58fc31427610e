/** Topic names, and how the broker matches them (components/nxpod-messagebus/src/messagebus.ts; section 3.1.3.3
    of the AMQP 0-9-1 specification). */
module Topics {
  import opened Options
  import opened Strings

  datatype WorkspaceTopic = WorkspaceTopic(userid: string, wsid: string, subtopic: string)

  predicate Given(s: Option<string>) {
    s.Some? && s.value != ""
  }

  function Or(s: Option<string>, default: string): string {
    if Given(s) then s.value else default
  }

  function TopicForListening(userid: Option<string>, wsid: Option<string>, subtopic: Option<string>): string {
    Or(userid, "*") + "." + Or(wsid, "*") + "." + Or(subtopic, "#")
  }

  function TopicForPublishing(userid: string, wsid: string, subtopic: string): string {
    TopicForListening(Some(userid), Some(wsid), Some(subtopic))
  }

  function InformationFromTopic(topic: string): Option<WorkspaceTopic> {
    var segments := Split(topic, '.');
    if |segments| != 3 then None else Some(WorkspaceTopic(segments[0], segments[1], segments[2]))
  }

  /** A star stands for one word, a hash for any number of words. */
  predicate WordsMatch(pattern: seq<string>, words: seq<string>)
    decreases |pattern| + |words|
  {
    if pattern == [] then words == []
    else if pattern[0] == "#" then WordsMatch(pattern[1..], words) || (words != [] && WordsMatch(pattern, words[1..]))
    else words != [] && (pattern[0] == "*" || pattern[0] == words[0]) && WordsMatch(pattern[1..], words[1..])
  }

  predicate TopicMatches(pattern: string, topic: string) {
    WordsMatch(Split(pattern, '.'), Split(topic, '.'))
  }

  /** One word: not empty and without a dot. */
  predicate IsWord(s: string) {
    s != "" && '.' !in s
  }

  predicate IsPlain(s: string) {
    IsWord(s) && s != "*" && s != "#"
  }

  function Dots(s: string): nat {
    if s == [] then 0 else (if s[0] == '.' then 1 else 0) + Dots(s[1..])
  }

  lemma {:induction false} SegmentsAndDots(s: string)
    ensures |Split(s, '.')| == Dots(s) + 1
    ensures Dots(s) == 0 <==> '.' !in s
  {
    if s != [] {
      SegmentsAndDots(s[1..]);
      assert s == [s[0]] + s[1..];
    }
  }

  lemma ThreeParts(a: string, b: string, c: string)
    ensures Split(a + "." + b + "." + c, '.') == Split(a, '.') + Split(b, '.') + Split(c, '.')
  {
    SplitConcat(a + "." + b, '.', c);
    SplitConcat(a, '.', b);
  }

  lemma TopicWords(a: string, b: string, c: string)
    requires '.' !in a && '.' !in b && '.' !in c
    ensures Split(a + "." + b + "." + c, '.') == [a, b, c]
  {
    ThreeParts(a, b, c);
    SplitWithout(a, '.');
    SplitWithout(b, '.');
    SplitWithout(c, '.');
  }

  /** A published topic parses back to its fields if and only if each of them is one word. */
  lemma PublishedTopicParses(userid: string, wsid: string, subtopic: string)
    ensures InformationFromTopic(TopicForPublishing(userid, wsid, subtopic))
      == Some(WorkspaceTopic(userid, wsid, subtopic))
      <==> IsWord(userid) && IsWord(wsid) && IsWord(subtopic)
  {
    var a, b, c := Or(Some(userid), "*"), Or(Some(wsid), "*"), Or(Some(subtopic), "#");
    ThreeParts(a, b, c);
    SegmentsAndDots(a);
    SegmentsAndDots(b);
    SegmentsAndDots(c);
    if '.' !in a && '.' !in b && '.' !in c {
      TopicWords(a, b, c);
    }
  }

  lemma WordsMatchThree(a: string, b: string, c: string, x: string, y: string, z: string)
    requires a != "#" && b != "#"
    ensures WordsMatch([a, b, c], [x, y, z])
      <==> (a == "*" || a == x) && (b == "*" || b == y) && (c == "#" || c == "*" || c == z)
  {
    assert [a, b, c][1..] == [b, c] && [b, c][1..] == [c];
    assert [x, y, z][1..] == [y, z] && [y, z][1..] == [z] && [z][1..] == [];
    LastWord(c, z);
  }

  lemma LastWord(c: string, z: string)
    ensures WordsMatch([c], [z]) <==> c == "#" || c == "*" || c == z
  {
    assert [c][1..] == [] && [z][1..] == [];
    if c == "#" {
      assert WordsMatch([c], []);
    }
  }

  /** The broker delivers a published topic to a listener exactly when every field the listener gave agrees. */
  lemma ListenerGetsExactly(u: Option<string>, w: Option<string>, s: Option<string>,
                            userid: string, wsid: string, subtopic: string)
    requires IsPlain(userid) && IsPlain(wsid) && IsPlain(subtopic)
    requires (Given(u) ==> IsPlain(u.value)) && (Given(w) ==> IsPlain(w.value)) && (Given(s) ==> IsPlain(s.value))
    ensures TopicMatches(TopicForListening(u, w, s), TopicForPublishing(userid, wsid, subtopic))
      <==> (Given(u) ==> u.value == userid) && (Given(w) ==> w.value == wsid) && (Given(s) ==> s.value == subtopic)
  {
    TopicWords(Or(u, "*"), Or(w, "*"), Or(s, "#"));
    TopicWords(userid, wsid, subtopic);
    WordsMatchThree(Or(u, "*"), Or(w, "*"), Or(s, "#"), userid, wsid, subtopic);
  }
}
