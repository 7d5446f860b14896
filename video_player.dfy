/** The video player's two pure helpers: turning a YouTube link into an
    embeddable URL, and picking a curated video from a lesson title when a
    video fails to load. */
module VideoPlayer {
  import opened Common

  const EmbedPrefix := "https://www.youtube.com/embed/"
  /* ---------------- embed URLs ---------------- */

  /** The characters `.` in a regular expression does not match. */
  predicate LineTerminator(c: char)
  {
    c == '\n' || c == '\r' || c == '\U{2028}' || c == '\U{2029}'
  }

  /** The first line terminator at or after `i`, or the end of `s`. */
  function LineEndFrom(s: string, i: nat): (e: nat)
    requires i <= |s|
    ensures i <= e <= |s|
    ensures e < |s| ==> LineTerminator(s[e])
    ensures forall k :: i <= k < e ==> !LineTerminator(s[k])
    decreases |s| - i
  {
    if i == |s| || LineTerminator(s[i]) then i else LineEndFrom(s, i + 1)
  }

  /** The length of the marker alternative
      `youtu.be/ | v/ | u/\w/ | embed/ | watch?v= | &v=` matching at `p`;
      the alternatives start with distinct characters, so at most one does. */
  function MarkerLength(s: string, p: nat): Option<nat>
    requires p <= |s|
  {
    if p + 9 <= |s| && s[p] == 'y' && s[p + 1] == 'o' && s[p + 2] == 'u' && s[p + 3] == 't' && s[p + 4] == 'u'
       && !LineTerminator(s[p + 5]) && s[p + 6] == 'b' && s[p + 7] == 'e' && s[p + 8] == '/' then Some(9)
    else if p + 2 <= |s| && s[p] == 'v' && s[p + 1] == '/' then Some(2)
    else if p + 4 <= |s| && s[p] == 'u' && s[p + 1] == '/' && WordChar(s[p + 2]) && s[p + 3] == '/' then Some(4)
    else if p + 6 <= |s| && s[p] == 'e' && s[p + 1] == 'm' && s[p + 2] == 'b' && s[p + 3] == 'e' && s[p + 4] == 'd'
       && s[p + 5] == '/' then Some(6)
    else if p + 8 <= |s| && s[p] == 'w' && s[p + 1] == 'a' && s[p + 2] == 't' && s[p + 3] == 'c' && s[p + 4] == 'h'
       && s[p + 5] == '?' && s[p + 6] == 'v' && s[p + 7] == '=' then Some(8)
    else if p + 3 <= |s| && s[p] == '&' && s[p + 1] == 'v' && s[p + 2] == '=' then Some(3)
    else None
  }

  /** The greedy `^.*` backs off from `p` until a marker matches: the
      rightmost marker position at or before `p`, and the marker's length. */
  function FindMarker(s: string, p: int): (r: Option<(nat, nat)>)
    requires p <= |s|
    ensures r.Some? ==> r.value.0 <= p && MarkerLength(s, r.value.0) == Some(r.value.1)
    ensures r.Some? ==> forall q :: r.value.0 < q <= p ==> MarkerLength(s, q).None?
    ensures r.None? ==> forall q :: 0 <= q <= p ==> MarkerLength(s, q).None?
    decreases p + 1
  {
    if p < 0 then None
    else
      var m := MarkerLength(s, p);
      if m.Some? then Some((p, m.value)) else FindMarker(s, p - 1)
  }

  /** The characters `[^#&?]` excludes. */
  predicate IdStop(c: char)
  {
    c == '#' || c == '&' || c == '?'
  }

  /** End of the greedy `([^#&?]*)` starting at `i`. */
  function IdRunEnd(s: string, i: nat): (j: nat)
    requires i <= |s|
    ensures i <= j <= |s|
    ensures j < |s| ==> IdStop(s[j])
    ensures forall k :: i <= k < j ==> !IdStop(s[k])
    decreases |s| - i
  {
    if i == |s| || IdStop(s[i]) then i else IdRunEnd(s, i + 1)
  }

  /** `match[2]` of the embed pattern, or `None` when `url.match` gives
      `null`: the text after the rightmost marker of the first line, up to
      the first `#`, `&` or `?`. */
  function VideoIdOf(url: string): (r: Option<string>)
    ensures r.Some? ==> forall k :: 0 <= k < |r.value| ==> !IdStop(r.value[k])
  {
    var m := FindMarker(url, LineEndFrom(url, 0));
    if m.None? then None
    else
      var start := m.value.0 + m.value.1;
      Some(url[start..IdRunEnd(url, start)])
  }

  /** A character outside the Basic Multilingual Plane, which a JavaScript
      string stores as a surrogate pair. */
  predicate Astral(c: char)
  {
    c as int > 0xFFFF
  }

  /** JavaScript's `.length`: the number of UTF-16 code units, two for each
      astral character and one for every other. */
  function Utf16Length(s: string): (n: nat)
    ensures |s| <= n <= 2 * |s|
    ensures n == |s| <==> forall k :: 0 <= k < |s| ==> !Astral(s[k])
  {
    if s == [] then 0
    else
      var rest := Utf16Length(s[1..]);
      assert forall k :: 1 <= k < |s| ==> s[k] == s[1..][k - 1];
      (if Astral(s[0]) then 2 else 1) + rest
  }

  /** Ten characters whose last is astral: eleven code units. */
  const AstralId := "abcdefghi\U{1F600}"

  lemma AstralIdLength()
    ensures |AstralId| == 10
    ensures Utf16Length(AstralId) == 11
  {
  }

  /** `v/` followed by a run with no separator: the run is the capture. */
  lemma VSlashId(id: string)
    requires forall k :: 0 <= k < |id| ==> !LineTerminator(id[k]) && !IdStop(id[k]) && id[k] != '/'
    ensures VideoIdOf("v/" + id) == Some(id)
  {
    var s := "v/" + id;
    assert forall k :: 2 <= k < |s| ==> s[k] == id[k - 2];
    assert LineEndFrom(s, 0) == |s| by {
      assert forall k :: 0 <= k < |s| ==> !LineTerminator(s[k]);
    }
    forall q | 0 < q <= |s| ensures MarkerLength(s, q).None? {
      if q > 1 {
        NoMarkerWithoutSeparator(s, q);
      }
    }
    assert MarkerLength(s, 0) == Some(2);
    FindMarkerLands(s, |s|, 0, 2);
    assert FindMarker(s, LineEndFrom(s, 0)) == Some((0, 2));
    assert IdRunEnd(s, 2) == |s|;
    assert s[2..] == id;
    assert s[2..IdRunEnd(s, 2)] == id;
    assert VideoIdOf(s) == Some(id);
  }

  /** `v/` followed by `AstralId`: the capture is eleven code units long,
      so the link is embedded, although it holds only ten characters. */
  lemma AstralIdEmbeds()
    ensures GetYouTubeEmbedUrl("v/" + AstralId) == EmbedPrefix + AstralId
  {
    VSlashId(AstralId);
    AstralIdLength();
  }

  /** `getYouTubeEmbedUrl(url)`; its `match[2].length === 11` test counts
      UTF-16 code units. */
  function GetYouTubeEmbedUrl(url: string): string
  {
    var id := VideoIdOf(url);
    if id.Some? && Utf16Length(id.value) == 11 then EmbedPrefix + id.value
    else if Contains(url, "embed") then url
    else EmbedPrefix + url
  }

  /* ---------------- fallback videos ---------------- */

  /** A rule's test on the lower-cased title. */
  datatype Cond =
    | AnyOf(keys: seq<string>)            // `t.includes(k1) || t.includes(k2) ...`
    | AndNot(key: string, excluded: string) // `t.includes(a) && !t.includes(b)`
    | Both(first: string, second: string)   // `t.includes(a) && t.includes(b)`

  predicate Holds(c: Cond, t: string)
  {
    match c
    case AnyOf(keys) => AnyContained(t, keys)
    case AndNot(a, b) => Contains(t, a) && !Contains(t, b)
    case Both(a, b) => Contains(t, a) && Contains(t, b)
  }

  /** `t.includes(k1) || t.includes(k2) || ...`. */
  predicate AnyContained(t: string, keys: seq<string>)
  {
    keys != [] && (Contains(t, keys[0]) || AnyContained(t, keys[1..]))
  }

  datatype Rule = Rule(cond: Cond, url: string)

  const DefaultVideo := Watch("JMUxmLyrhSk")

  /** Rule `i` of the `if` chain of `getFallbackVideo`, in source order
      (the last for any `i` past it). */
  function FallbackRule(i: int): Rule
  {
    match i
    case 0 => Rule(AnyOf(["artificial intelligence", "what is ai"]), Watch("ad79nYk2keg"))
    case 1 => Rule(AndNot("machine learning", "deep"), Watch("ukzFI9rgwfU"))
    case 2 => Rule(AnyOf(["deep learning"]), Watch("6M5VXKLf4D4"))
    case 3 => Rule(AnyOf(["neural network", "neuron"]), Watch("aircAruvnKk"))
    case 4 => Rule(AnyOf(["activation"]), Watch("Xvg00QnyaIY"))
    case 5 => Rule(AnyOf(["backpropagation"]), Watch("Ilg3gGewQ5U"))
    case 6 => Rule(AnyOf(["gradient descent"]), Watch("sDv4f4s2SB8"))
    case 7 => Rule(AnyOf(["cnn", "convolutional"]), Watch("YRhxdVk_sIs"))
    case 8 => Rule(AnyOf(["lstm"]), Watch("8HyCNIVRbSU"))
    case 9 => Rule(AnyOf(["rnn", "recurrent"]), Watch("AsNTP8Kwu80"))
    case 10 => Rule(AnyOf(["transformer"]), Watch("4Bdc55j80l8"))
    case 11 => Rule(AnyOf(["attention"]), Watch("fjJOgb-E41w"))
    case 12 => Rule(AnyOf(["bert"]), Watch("xI0HHN5XKDo"))
    case 13 => Rule(AnyOf(["gpt", "chatgpt"]), Watch("kCc8FmEb1nY"))
    case 14 => Rule(AnyOf(["nlp", "natural language"]), Watch("CMrHM8a3hqw"))
    case 15 => Rule(AnyOf(["word embedding", "word2vec"]), Watch("viZrOnJclY0"))
    case 16 => Rule(Both("python", "ai"), Watch("rfscVS0vtbw"))
    case 17 => Rule(AnyOf(["tensorflow"]), Watch("tPYj3fFJGjk"))
    case 18 => Rule(AnyOf(["pytorch"]), Watch("EMXfZB8FVUA"))
    case 19 => Rule(AnyOf(["numpy"]), Watch("QUT1VHiLmmI"))
    case 20 => Rule(AnyOf(["pandas"]), Watch("vmEHCJofslg"))
    case 21 => Rule(AnyOf(["decision tree"]), Watch("_L39rN6gz7Y"))
    case 22 => Rule(AnyOf(["random forest"]), Watch("v6VJ2RO66Ag"))
    case 23 => Rule(AnyOf(["svm", "support vector"]), Watch("efR1C6CvhmE"))
    case 24 => Rule(AnyOf(["k-means", "clustering"]), Watch("4b5d3muPQmA"))
    case 25 => Rule(AnyOf([SupervisedKey]), Watch("4qVRBYAdLAo"))
    case 26 => Rule(AnyOf([UnsupervisedKey]), Watch("8dqdDEyzkFA"))
    case 27 => Rule(AnyOf(["gan", "generative adversarial"]), Watch("8L11aMN5KY8"))
    case 28 => Rule(AnyOf(["vae", "variational autoencoder"]), Watch("9zKuYvjFFS8"))
    case 29 => Rule(AnyOf(["diffusion"]), Watch("fbLgFrlTnGU"))
    case 30 => Rule(AnyOf(["reinforcement"]), Watch("2pWv7GOvuf0"))
    case 31 => Rule(AnyOf(["q-learning"]), Watch("qhRNvCVVJaA"))
    case _ => Rule(AnyOf(["computer vision", "image"]), Watch("WQeoO7MI0Bs"))
  }

  const RuleCount := 33

  /** The chain of `getFallbackVideo`. */
  function FallbackRules(): (r: seq<Rule>)
    ensures |r| == RuleCount && forall i :: 0 <= i < RuleCount ==> r[i] == FallbackRule(i)
  {
    seq(RuleCount, FallbackRule)
  }

  /** Positions of some rules in the chain. */
  const MachineLearningRule := 1
  const DeepLearningRule := 2
  const LstmRule := 8
  const RnnRule := 9
  const SupervisedRule := 25
  const UnsupervisedRule := 26

  /** The first rule at or after `from` whose test holds. */
  function FirstRule(rules: seq<Rule>, t: string, from: nat): (r: Option<nat>)
    requires from <= |rules|
    ensures r.Some? ==> from <= r.value < |rules| && Holds(rules[r.value].cond, t)
    ensures r.Some? ==> forall j :: from <= j < r.value ==> !Holds(rules[j].cond, t)
    ensures r.None? ==> forall j :: from <= j < |rules| ==> !Holds(rules[j].cond, t)
    decreases |rules| - from
  {
    if from == |rules| then None
    else if Holds(rules[from].cond, t) then Some(from)
    else FirstRule(rules, t, from + 1)
  }

  /** The video a rule chain picks for a title: the first rule whose test
      holds on the lower-cased title, else the default. */
  function PickVideo(rules: seq<Rule>, title: string): string
  {
    var i := FirstRule(rules, ToLower(title), 0);
    if i.Some? then rules[i.value].url else DefaultVideo
  }

  /** `getFallbackVideo(title)`. */
  function GetFallbackVideo(title: string): string
  {
    PickVideo(FallbackRules(), title)
  }

  /** The chain with the "unsupervised learning" rule tested before the
      "supervised learning" rule it would otherwise never get past. */
  function CorrectedFallbackRules(): (r: seq<Rule>)
    ensures |r| == RuleCount
    ensures forall i :: 0 <= i < RuleCount && i != SupervisedRule && i != UnsupervisedRule ==> r[i] == FallbackRule(i)
    ensures r[SupervisedRule] == FallbackRule(UnsupervisedRule) && r[UnsupervisedRule] == FallbackRule(SupervisedRule)
  {
    seq(RuleCount, i =>
      FallbackRule(if i == SupervisedRule then UnsupervisedRule else if i == UnsupervisedRule then SupervisedRule else i))
  }

  /** `getFallbackVideo(title)` with the two learning rules in the
      intended order. */
  function GetFallbackVideoCorrected(title: string): string
  {
    PickVideo(CorrectedFallbackRules(), title)
  }

  /* ---------------- properties of the embed URL ---------------- */

  /** A position from which no `/`, `?` or `&` follows starts no marker. */
  lemma NoMarkerWithoutSeparator(s: string, q: nat)
    requires q <= |s|
    requires forall k :: q <= k < |s| ==> s[k] != '/' && s[k] != '?' && s[k] != '&'
    ensures MarkerLength(s, q).None?
  {
  }

  /** `FindMarker` lands on a marker with no marker after it. */
  lemma {:induction false} FindMarkerLands(s: string, p: int, pos: nat, len: nat)
    requires pos <= p <= |s|
    requires MarkerLength(s, pos) == Some(len)
    requires forall q :: pos < q <= p ==> MarkerLength(s, q).None?
    ensures FindMarker(s, p) == Some((pos, len))
    decreases p
  {
    if p > pos {
      FindMarkerLands(s, p - 1, pos, len);
    }
  }

  /** Id characters are no line terminators and no separators. */
  lemma IdCharFacts(c: char)
    requires IdChar(c)
    ensures !LineTerminator(c) && !IdStop(c) && c != '/' && !Astral(c)
  {
  }

  /** The id extracted from `https://www.youtube.com/<marker><id>` when
      `<marker>` is the rightmost marker and `id` is made of id characters. */
  lemma {:induction false} IdAfterHost(s: string, m: nat, id: string)
    requires |s| == 24 + m + |id|
    requires s[24 + m..] == id
    requires forall k :: 0 <= k < 24 + m ==> !LineTerminator(s[k])
    requires forall k :: 0 <= k < |id| ==> IdChar(id[k])
    requires MarkerLength(s, 24) == Some(m)
    requires forall q :: 24 < q < 24 + m ==> MarkerLength(s, q).None?
    ensures VideoIdOf(s) == Some(id)
  {
    forall k | 24 + m <= k < |s| ensures !LineTerminator(s[k]) && !IdStop(s[k]) && s[k] != '/' {
      assert s[k] == id[k - 24 - m];
      IdCharFacts(id[k - 24 - m]);
    }
    assert LineEndFrom(s, 0) == |s|;
    forall q | 24 + m <= q <= |s| ensures MarkerLength(s, q).None? {
      NoMarkerWithoutSeparator(s, q);
    }
    FindMarkerLands(s, |s|, 24, m);
    assert FindMarker(s, LineEndFrom(s, 0)) == Some((24, m));
    assert IdRunEnd(s, 24 + m) == |s|;
    assert s[24 + m..IdRunEnd(s, 24 + m)] == id;
  }

  /** `https://www.youtube.com/watch?v=ID` with an 11-character id becomes
      `https://www.youtube.com/embed/ID`. */
  lemma WatchUrlEmbeds(id: string)
    requires |id| == 11 && forall k :: 0 <= k < |id| ==> IdChar(id[k])
    ensures GetYouTubeEmbedUrl(Watch(id)) == EmbedPrefix + id
  {
    var s := Watch(id);
    assert s[32..] == id;
    assert s[24] == 'w' && s[25] == 'a' && s[26] == 't' && s[27] == 'c' && s[28] == 'h';
    assert s[29] == '?' && s[30] == 'v' && s[31] == '=';
    forall k | 0 <= k < 32 ensures !LineTerminator(s[k]) {
      assert s[k] == WatchPrefix[k];
    }
    IdAfterHost(s, 8, id);
    forall k | 0 <= k < |id| ensures !Astral(id[k]) {
      IdCharFacts(id[k]);
    }
  }

  /** An embed URL with an 11-character id is left as it is, so the
      normaliser is idempotent on what it produces from watch links. */
  lemma EmbedUrlIsFixed(id: string)
    requires |id| == 11 && forall k :: 0 <= k < |id| ==> IdChar(id[k])
    ensures GetYouTubeEmbedUrl(EmbedPrefix + id) == EmbedPrefix + id
    ensures GetYouTubeEmbedUrl(GetYouTubeEmbedUrl(Watch(id))) == GetYouTubeEmbedUrl(Watch(id))
  {
    var s := EmbedPrefix + id;
    assert s[30..] == id;
    assert s[24] == 'e' && s[25] == 'm' && s[26] == 'b' && s[27] == 'e' && s[28] == 'd' && s[29] == '/';
    forall k | 0 <= k < 30 ensures !LineTerminator(s[k]) {
      assert s[k] == EmbedPrefix[k];
    }
    IdAfterHost(s, 6, id);
    WatchUrlEmbeds(id);
  }

  /** Whatever the input, the result mentions `embed`. */
  lemma EmbedUrlMentionsEmbed(url: string)
    ensures Contains(GetYouTubeEmbedUrl(url), "embed")
  {
    var id := VideoIdOf(url);
    if id.Some? && Utf16Length(id.value) == 11 {
      PrefixedMentionsEmbed(id.value);
    } else if !Contains(url, "embed") {
      PrefixedMentionsEmbed(url);
    }
  }

  lemma PrefixedMentionsEmbed(x: string)
    ensures Contains(EmbedPrefix + x, "embed")
  {
    var r := EmbedPrefix + x;
    assert r[24..29] == EmbedPrefix[24..29];
    assert EmbedPrefix[24..29] == "embed";
    ContainsWitness(r, "embed", 24);
  }

  /** Without a marker the input is taken for a bare id; an input with no
      marker that mentions `embed` is kept. */
  lemma NoMarkerFallsBack(url: string)
    requires forall q :: 0 <= q <= |url| ==> MarkerLength(url, q).None?
    ensures GetYouTubeEmbedUrl(url) == if Contains(url, "embed") then url else EmbedPrefix + url
  {
  }

  /* ---------------- properties of the fallback video ---------------- */

  /** The pick depends only on the lower-cased title. */
  lemma PickIgnoresCase(rules: seq<Rule>, a: string, b: string)
    requires ToLower(a) == ToLower(b)
    ensures PickVideo(rules, a) == PickVideo(rules, b)
    ensures PickVideo(rules, a) == PickVideo(rules, ToLower(a))
  {
    ToLowerIdempotent(a);
  }

  /** The pick is the URL of one of the rules, or the default. */
  lemma PickIsListed(rules: seq<Rule>, title: string)
    ensures PickVideo(rules, title) == DefaultVideo ||
      exists i :: 0 <= i < |rules| && PickVideo(rules, title) == rules[i].url
  {
  }

  /** The pick is the URL of the first rule that holds on the lower-cased
      title, and the default when none holds. */
  lemma PickIsFirstMatch(rules: seq<Rule>, title: string, i: nat)
    requires i < |rules| && Holds(rules[i].cond, ToLower(title))
    requires forall j :: 0 <= j < i ==> !Holds(rules[j].cond, ToLower(title))
    ensures PickVideo(rules, title) == rules[i].url
  {
  }

  /** A title mentioning "lstm" never reaches the recurrent-network rule,
      which comes after the LSTM rule. */
  lemma LstmBeforeRnn(title: string)
    requires Contains(ToLower(title), "lstm")
    ensures FirstRule(FallbackRules(), ToLower(title), 0).Some?
    ensures FirstRule(FallbackRules(), ToLower(title), 0).value <= LstmRule < RnnRule
  {
    assert Holds(FallbackRules()[LstmRule].cond, ToLower(title));
  }

  /** The machine-learning rule is skipped on any title mentioning "deep";
      a title mentioning "deep learning" gets at latest the deep-learning
      video. */
  lemma DeepSkipsMachineLearning(title: string)
    requires Contains(ToLower(title), "deep")
    ensures FirstRule(FallbackRules(), ToLower(title), 0) != Some(MachineLearningRule)
    ensures Contains(ToLower(title), "deep learning") ==>
      FirstRule(FallbackRules(), ToLower(title), 0).Some? &&
      FirstRule(FallbackRules(), ToLower(title), 0).value <= DeepLearningRule
  {
    if Contains(ToLower(title), "deep learning") {
      assert Holds(FallbackRules()[DeepLearningRule].cond, ToLower(title));
    }
  }

  /** A one-key test is one `includes`. */
  lemma AnyContainedOne(t: string, k: string)
    ensures AnyContained(t, [k]) <==> Contains(t, k)
  {
    assert [k][1..] == [];
  }

  /** As written the "unsupervised learning" rule never fires: the rule
      before it already holds on every title it holds on. */
  lemma UnsupervisedRuleUnreachable(title: string)
    ensures FirstRule(FallbackRules(), ToLower(title), 0) != Some(UnsupervisedRule)
  {
    var t := ToLower(title);
    var rules := FallbackRules();
    assert rules[UnsupervisedRule].cond == AnyOf([UnsupervisedKey]);
    assert rules[SupervisedRule].cond == AnyOf([SupervisedKey]);
    AnyContainedOne(t, UnsupervisedKey);
    AnyContainedOne(t, SupervisedKey);
    if Holds(rules[UnsupervisedRule].cond, t) {
      UnsupervisedMentionsSupervised(t);
    }
  }

  /** With the corrected order a title about unsupervised learning that no
      earlier rule claims gets the unsupervised-learning video. */
  lemma CorrectedPicksUnsupervised(title: string)
    requires Contains(ToLower(title), UnsupervisedKey)
    requires forall j :: 0 <= j < SupervisedRule ==> !Holds(FallbackRule(j).cond, ToLower(title))
    ensures GetFallbackVideoCorrected(title) == Watch("8dqdDEyzkFA")
  {
    var c := CorrectedFallbackRules();
    var t := ToLower(title);
    assert c[SupervisedRule] == Rule(AnyOf([UnsupervisedKey]), Watch("8dqdDEyzkFA"));
    AnyContainedOne(t, UnsupervisedKey);
    forall j | 0 <= j < SupervisedRule ensures !Holds(c[j].cond, t) {
      assert c[j] == FallbackRule(j);
    }
    PickIsFirstMatch(c, title, SupervisedRule);
  }
}
