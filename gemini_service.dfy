/** The deterministic parts of the AI helper: reading a YouTube link out of
    the model's reply, the per-topic fallback video table used when no link
    is found or the request fails, and the canned lesson content used when
    content generation fails. The model calls themselves are not part of
    this model; their reply enters as a parameter. */
module GeminiService {
  import opened Common
  import QuizComponent

  /* ---------------- the fallback table ---------------- */

  /** Entry `i` of `fallbackVideos`, in insertion order, which is the
      order `Object.entries` visits (the last for any `i` past it). */
  function TopicEntry(i: int): (string, string)
  {
    match i
    case 0 => ("artificial intelligence", Watch("ad79nYk2keg"))
    case 1 => ("ai", Watch("JMUxmLyrhSk"))
    case 2 => ("machine learning", Watch("ukzFI9rgwfU"))
    case 3 => ("deep learning", Watch("6M5VXKLf4D4"))
    case 4 => ("neural network", Watch("aircAruvnKk"))
    case 5 => ("python", Watch("rfscVS0vtbw"))
    case 6 => ("cnn", Watch("YRhxdVk_sIs"))
    case 7 => ("rnn", Watch("LHXXI4-IEns"))
    case 8 => ("lstm", Watch("8HyCNIVRbSU"))
    case 9 => ("transformer", Watch("4Bdc55j80l8"))
    case 10 => ("gpt", Watch("kCc8FmEb1nY"))
    case 11 => ("bert", Watch("xI0HHN5XKDo"))
    case 12 => ("nlp", Watch("CMrHM8a3hqw"))
    case 13 => ("computer vision", Watch("WQeoO7MI0Bs"))
    case 14 => ("gan", Watch("8L11aMN5KY8"))
    case 15 => ("reinforcement learning", Watch("2pWv7GOvuf0"))
    case 16 => (SupervisedKey, Watch("4qVRBYAdLAo"))
    case 17 => (UnsupervisedKey, Watch("8dqdDEyzkFA"))
    case 18 => ("tensorflow", Watch("tPYj3fFJGjk"))
    case 19 => ("pytorch", Watch("EMXfZB8FVUA"))
    case 20 => ("numpy", Watch("QUT1VHiLmmI"))
    case _ => ("pandas", Watch("vmEHCJofslg"))
  }

  const TopicCount := 22
  const ArtificialIntelligenceEntry := 0
  const AiEntry := 1
  const SupervisedEntry := 16
  const UnsupervisedEntry := 17

  const DefaultTopicVideo := Watch("JMUxmLyrhSk")

  function FallbackVideos(): (r: seq<(string, string)>)
    ensures |r| == TopicCount && forall i :: 0 <= i < TopicCount ==> r[i] == TopicEntry(i)
  {
    seq(TopicCount, TopicEntry)
  }

  /** The table with the "unsupervised learning" entry visited before the
      "supervised learning" entry that otherwise shadows it. */
  function CorrectedFallbackVideos(): (r: seq<(string, string)>)
    ensures |r| == TopicCount
    ensures forall i :: 0 <= i < TopicCount && i != SupervisedEntry && i != UnsupervisedEntry ==> r[i] == TopicEntry(i)
    ensures r[SupervisedEntry] == TopicEntry(UnsupervisedEntry) && r[UnsupervisedEntry] == TopicEntry(SupervisedEntry)
  {
    seq(TopicCount, i =>
      TopicEntry(if i == SupervisedEntry then UnsupervisedEntry else if i == UnsupervisedEntry then SupervisedEntry else i))
  }

  /** The first entry at or after `from` whose key occurs in `t`. */
  function FirstKey(entries: seq<(string, string)>, t: string, from: nat): (r: Option<nat>)
    requires from <= |entries|
    ensures r.Some? ==> from <= r.value < |entries| && Contains(t, entries[r.value].0)
    ensures r.Some? ==> forall j :: from <= j < r.value ==> !Contains(t, entries[j].0)
    ensures r.None? ==> forall j :: from <= j < |entries| ==> !Contains(t, entries[j].0)
    decreases |entries| - from
  {
    if from == |entries| then None
    else if Contains(t, entries[from].0) then Some(from)
    else FirstKey(entries, t, from + 1)
  }

  /** The loop over the table for a topic: the first key the lower-cased
      topic contains, else the default. */
  function LookUpTopic(entries: seq<(string, string)>, topic: string): string
  {
    var i := FirstKey(entries, ToLower(topic), 0);
    if i.Some? then entries[i.value].1 else DefaultTopicVideo
  }

  /** `getFallbackVideoForTopic(topic)`. */
  function GetFallbackVideoForTopic(topic: string): string
  {
    LookUpTopic(FallbackVideos(), topic)
  }

  /** `getFallbackVideoForTopic(topic)` with the learning entries in the
      intended order. */
  function GetFallbackVideoForTopicCorrected(topic: string): string
  {
    LookUpTopic(CorrectedFallbackVideos(), topic)
  }

  /* ---------------- link extraction ---------------- */

  /** Eleven characters of `[\w-]` from `q`. */
  predicate IdAt(s: string, q: int)
  {
    0 <= q && q + 11 <= |s| && forall k :: q <= k < q + 11 ==> IdChar(s[k])
  }

  /** Where `https?:\/\/` matched at `p` ends. */
  function AfterScheme(s: string, p: nat): (r: Option<nat>)
    ensures r.None? <==> !OccursAt(s, "https://", p) && !OccursAt(s, "http://", p)
    ensures r.Some? ==> p + 7 <= r.value <= p + 8 && r.value <= |s|
  {
    if OccursAt(s, "https://", p) then Some(p + 8)
    else if OccursAt(s, "http://", p) then Some(p + 7)
    else None
  }

  /** Where the id starts when pattern `k` (0, 1 or 2 in source order)
      matches at `p`:
        0: `https?:\/\/(www\.)?youtube\.com\/watch\?v=([\w-]{11})`
        1: `https?:\/\/youtu\.be\/([\w-]{11})`
        2: `youtube\.com\/watch\?v=([\w-]{11})` */
  function IdStart(k: int, s: string, p: nat): (r: Option<nat>)
    ensures r.Some? ==> p + 16 <= r.value && IdAt(s, r.value)
  {
    if k == 0 then
      var a := AfterScheme(s, p);
      if a.None? then None
      else if OccursAt(s, "www.youtube.com/watch?v=", a.value) && IdAt(s, a.value + 24) then Some(a.value + 24)
      else if OccursAt(s, "youtube.com/watch?v=", a.value) && IdAt(s, a.value + 20) then Some(a.value + 20)
      else None
    else if k == 1 then
      var a := AfterScheme(s, p);
      if a.Some? && OccursAt(s, "youtu.be/", a.value) && IdAt(s, a.value + 9) then Some(a.value + 9) else None
    else
      if OccursAt(s, "youtube.com/watch?v=", p) && IdAt(s, p + 20) then Some(p + 20) else None
  }

  /** `text.match(pattern k)`: the leftmost match at or after `p`, as the
      captured id. */
  function LeftmostMatch(k: int, s: string, p: nat): (r: Option<string>)
    ensures r.Some? ==> |r.value| == 11 && forall i :: 0 <= i < 11 ==> IdChar(r.value[i])
    decreases |s| + 1 - p
  {
    if p > |s| then None
    else
      var q := IdStart(k, s, p);
      if q.Some? then
        assert IdAt(s, q.value);
        Some(s[q.value..q.value + 11])
      else LeftmostMatch(k, s, p + 1)
  }

  /** The pattern loop of `recommendVideo`: the id of the first pattern
      that matches anywhere. */
  function ExtractVideoId(text: string): (r: Option<string>)
    ensures r.Some? ==> |r.value| == 11 && forall i :: 0 <= i < 11 ==> IdChar(r.value[i])
  {
    var m0 := LeftmostMatch(0, text, 0);
    if m0.Some? then m0
    else
      var m1 := LeftmostMatch(1, text, 0);
      if m1.Some? then m1 else LeftmostMatch(2, text, 0)
  }

  /** `recommendVideo(topic)` given the model's trimmed reply, or `None`
      when the request threw; the fallback is the table lookup. */
  function RecommendVideo(reply: Option<string>, topic: string): (r: string)
    ensures reply.None? ==> r == GetFallbackVideoForTopic(topic)
    ensures reply.Some? && ExtractVideoId(reply.value).Some? ==> r == Watch(ExtractVideoId(reply.value).value)
    ensures reply.Some? && ExtractVideoId(reply.value).None? ==> r == GetFallbackVideoForTopic(topic)
  {
    if reply.None? then GetFallbackVideoForTopic(topic)
    else
      var id := ExtractVideoId(reply.value);
      if id.Some? then Watch(id.value) else GetFallbackVideoForTopic(topic)
  }

  /* ---------------- canned content ---------------- */

  datatype GeneratedContent = GeneratedContent(summary: string, keyPoints: seq<string>, quiz: seq<QuizComponent.QuizQuestion>)

  const FallbackSummary := "This lesson covers fundamental AI concepts including machine learning algorithms, neural networks, and their practical applications. The content explores how artificial intelligence systems learn from data and make predictions or decisions based on patterns they discover."

  const FallbackKeyPoints: seq<string> := [
    "Understanding machine learning fundamentals",
    "Neural network architecture basics",
    "Supervised vs unsupervised learning",
    "Deep learning concepts",
    "AI applications in real world",
    "Data preprocessing techniques",
    "Model training and validation",
    "Overfitting and underfitting",
    "Feature engineering importance",
    "AI ethics and bias considerations"]

  const LearningParadigmsQuestion := QuizComponent.QuizQuestion(
    "What is the main difference between supervised and unsupervised learning?",
    ["Supervised learning uses labeled data",
     "Unsupervised learning is faster",
     "Supervised learning doesn't need data",
     "There is no difference"],
    0,
    Some("Supervised learning uses labeled training data to learn patterns."))

  const NeuralNetworkQuestion := QuizComponent.QuizQuestion(
    "What is a neural network?",
    ["A computer network",
     "A mathematical model inspired by biological neurons",
     "A type of database",
     "A programming language"],
    1,
    Some("Neural networks are mathematical models inspired by how biological neurons work."))

  /** `getFallbackContent()`. */
  function GetFallbackContent(): (c: GeneratedContent)
    ensures |c.keyPoints| == 10 && |c.quiz| == 2
    ensures forall i :: 0 <= i < |c.quiz| ==>
      |c.quiz[i].options| == 4 && 0 <= c.quiz[i].correctAnswer < |c.quiz[i].options|
  {
    var quiz := [LearningParadigmsQuestion, NeuralNetworkQuestion];
    assert quiz[0] == LearningParadigmsQuestion && quiz[1] == NeuralNetworkQuestion;
    GeneratedContent(FallbackSummary, FallbackKeyPoints, quiz)
  }

  /* ---------------- properties ---------------- */

  /** Answering the canned quiz with its correct answers scores full marks
      and passes. */
  lemma FallbackQuizAnswerable()
    ensures var q := GetFallbackContent().quiz;
      QuizComponent.Score([q[0].correctAnswer, q[1].correctAnswer], q) == 2 &&
      QuizComponent.Passed(2, |q|)
  {
    var q := GetFallbackContent().quiz;
    QuizComponent.AllCorrectScoresTotal([q[0].correctAnswer, q[1].correctAnswer], q);
  }

  /** The fallback content's quiz has two questions while the day view
      completes a day on `score >= 3`: no answers to it complete the day,
      although answering both correctly passes the quiz, and the corrected
      rule completes the day on that perfect score. */
  lemma FallbackQuizNeverCompletesDay(answers: seq<int>)
    requires |answers| == |GetFallbackContent().quiz|
    ensures !QuizComponent.DayViewerCompletesAsWritten(QuizComponent.Score(answers, GetFallbackContent().quiz))
    ensures var q := GetFallbackContent().quiz;
      var perfect := QuizComponent.Score([q[0].correctAnswer, q[1].correctAnswer], q);
      QuizComponent.Passed(perfect, |q|) && QuizComponent.DayViewerCompletes(perfect, |q|)
  {
    FallbackQuizAnswerable();
  }

  /** The lookup depends only on the lower-cased topic. */
  lemma LookUpIgnoresCase(entries: seq<(string, string)>, a: string, b: string)
    requires ToLower(a) == ToLower(b)
    ensures LookUpTopic(entries, a) == LookUpTopic(entries, b)
    ensures LookUpTopic(entries, a) == LookUpTopic(entries, ToLower(a))
  {
    ToLowerIdempotent(a);
  }

  /** The lookup gives the URL of an entry, or the default. */
  lemma LookUpIsListed(entries: seq<(string, string)>, topic: string)
    ensures LookUpTopic(entries, topic) == DefaultTopicVideo ||
      exists i :: 0 <= i < |entries| && LookUpTopic(entries, topic) == entries[i].1
  {
  }

  /** The lookup gives the URL of the first key the lower-cased topic
      contains. */
  lemma LookUpIsFirstMatch(entries: seq<(string, string)>, topic: string, i: nat)
    requires i < |entries| && Contains(ToLower(topic), entries[i].0)
    requires forall j :: 0 <= j < i ==> !Contains(ToLower(topic), entries[j].0)
    ensures LookUpTopic(entries, topic) == entries[i].1
  {
  }

  /** Since "ai" is the second key, every topic mentioning "ai" but not
      "artificial intelligence" gets the general AI video, the same one as
      the default; so a topic that gets neither of the first two videos
      does not mention "ai". */
  lemma AiKeyShadowsTheRest(topic: string)
    ensures var t := ToLower(topic);
      Contains(t, "ai") && !Contains(t, "artificial intelligence") ==>
        GetFallbackVideoForTopic(topic) == DefaultTopicVideo
    ensures var r := GetFallbackVideoForTopic(topic);
      r != Watch("ad79nYk2keg") && r != DefaultTopicVideo ==> !Contains(ToLower(topic), "ai")
  {
    var t := ToLower(topic);
    var e := FallbackVideos();
    assert e[ArtificialIntelligenceEntry] == ("artificial intelligence", Watch("ad79nYk2keg"));
    assert e[AiEntry] == ("ai", Watch("JMUxmLyrhSk"));
    if Contains(t, "ai") {
      if Contains(t, "artificial intelligence") {
        LookUpIsFirstMatch(e, topic, ArtificialIntelligenceEntry);
      } else {
        LookUpIsFirstMatch(e, topic, AiEntry);
      }
    }
  }

  /** As written the "unsupervised learning" entry is never the one found. */
  lemma UnsupervisedEntryUnreachable(topic: string)
    ensures FirstKey(FallbackVideos(), ToLower(topic), 0) != Some(UnsupervisedEntry)
  {
    var t := ToLower(topic);
    var e := FallbackVideos();
    assert e[SupervisedEntry].0 == SupervisedKey;
    assert e[UnsupervisedEntry].0 == UnsupervisedKey;
    if Contains(t, UnsupervisedKey) {
      UnsupervisedMentionsSupervised(t);
    }
  }

  /** With the corrected order a topic about unsupervised learning that no
      earlier key claims gets the unsupervised-learning video. */
  lemma CorrectedFindsUnsupervised(topic: string)
    requires Contains(ToLower(topic), UnsupervisedKey)
    requires forall j :: 0 <= j < SupervisedEntry ==> !Contains(ToLower(topic), TopicEntry(j).0)
    ensures GetFallbackVideoForTopicCorrected(topic) == Watch("8dqdDEyzkFA")
  {
    var c := CorrectedFallbackVideos();
    assert c[SupervisedEntry] == (UnsupervisedKey, Watch("8dqdDEyzkFA"));
    forall j | 0 <= j < SupervisedEntry ensures !Contains(ToLower(topic), c[j].0) {
      assert c[j] == TopicEntry(j);
    }
    LookUpIsFirstMatch(c, topic, SupervisedEntry);
  }

  /** A reply that is a watch link with an 11-character id yields that very
      link: the recommendation is a fixed point on its own output. */
  lemma WatchLinkRoundTrip(id: string, rest: string, topic: string)
    requires |id| == 11 && forall k :: 0 <= k < 11 ==> IdChar(id[k])
    ensures ExtractVideoId(Watch(id) + rest) == Some(id)
    ensures RecommendVideo(Some(Watch(id) + rest), topic) == Watch(id)
    ensures RecommendVideo(Some(RecommendVideo(Some(Watch(id)), topic)), topic) == Watch(id)
  {
    var s := Watch(id) + rest;
    WatchLinkShape(id, rest);
    assert IdStart(0, s, 0) == Some(32);
    assert LeftmostMatch(0, s, 0) == Some(id);
    WatchLinkRoundTripPlain(id, topic);
  }

  lemma WatchLinkRoundTripPlain(id: string, topic: string)
    requires |id| == 11 && forall k :: 0 <= k < 11 ==> IdChar(id[k])
    ensures RecommendVideo(Some(Watch(id)), topic) == Watch(id)
  {
    var s := Watch(id);
    assert s + [] == s;
    WatchLinkShape(id, []);
    assert IdStart(0, s, 0) == Some(32);
    assert LeftmostMatch(0, s, 0) == Some(id);
  }

  /** The pieces of a watch link that the first pattern matches. */
  lemma WatchLinkShape(id: string, rest: string)
    requires |id| == 11 && forall k :: 0 <= k < 11 ==> IdChar(id[k])
    ensures var s := Watch(id) + rest;
      && OccursAt(s, "https://", 0)
      && OccursAt(s, "www.youtube.com/watch?v=", 8)
      && IdAt(s, 32)
      && s[32..43] == id
  {
    var s := Watch(id) + rest;
    forall k | 0 <= k < 32 ensures s[k] == WatchPrefix[k] {
    }
    forall k | 0 <= k < 8 ensures s[k] == "https://"[k] {
      assert s[k] == WatchPrefix[k];
    }
    assert s[0..8] == "https://";
    forall k | 0 <= k < 24 ensures s[8 + k] == "www.youtube.com/watch?v="[k] {
      assert s[8 + k] == WatchPrefix[8 + k];
    }
    assert s[8..32] == "www.youtube.com/watch?v=";
    forall k | 0 <= k < 11 ensures s[32 + k] == id[k] {
    }
    assert s[32..43] == id;
    forall k | 32 <= k < 43 ensures IdChar(s[k]) {
      assert s[k] == id[k - 32];
    }
  }

  /** Whatever the reply, the recommendation is a watch link with an
      11-character id or a fallback-table video. */
  lemma RecommendationShape(reply: Option<string>, topic: string)
    ensures var r := RecommendVideo(reply, topic);
      (exists id :: |id| == 11 && (forall k :: 0 <= k < 11 ==> IdChar(id[k])) && r == Watch(id))
      || r == GetFallbackVideoForTopic(topic)
  {
    if reply.Some? && ExtractVideoId(reply.value).Some? {
      var id := ExtractVideoId(reply.value).value;
      assert RecommendVideo(reply, topic) == Watch(id);
    }
  }
}
