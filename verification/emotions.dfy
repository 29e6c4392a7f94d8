/** The emotion worker's deterministic part (server/emotions_detector.py):
    the random draws are inputs, and what remains is the de-duplication of
    the drawn emotions, the confidence computation with its likelihood-gated
    boost and clamp to 10, and the fallback that keeps the emitted list from
    ever being empty. */
module Emotions {
  import opened Wrappers
  import opened Seqs
  import Utils

  /** An entry of `POSSIBLE_EMOTIONS`. */
  datatype Emotion = Emotion(name: string, likelihood: nat)

  const PossibleEmotions: seq<Emotion> := [
    Emotion("neutral", 30),
    Emotion("happy", 20),
    Emotion("sad", 10),
    Emotion("angry", 5),
    Emotion("surprised", 15),
    Emotion("fearful", 5),
    Emotion("disgusted", 5)
  ]

  /** `FALLBACK_RESPONSE`: neutral with the lowest confidence. */
  const Fallback: seq<Utils.Entry> := [Utils.Entry("neutral", 1)]

  /** Likelihood above which an emotion may be boosted. */
  const BoostThreshold: int := 15

  /** The largest confidence emitted. */
  const MaxConfidence: int := 10

  /** What `random.choices([1, 2, 3], ...)` can return. */
  type DrawCount = n: int | 1 <= n <= 3 witness 1

  /** A position in `POSSIBLE_EMOTIONS`, what one weighted draw selects. */
  type EmotionIndex = i: int | 0 <= i < 7

  /** What `random.randint(1, 10)` can return. */
  type BaseDraw = c: int | 1 <= c <= 10 witness 1

  /** What `random.randint(0, 5)` can return. */
  type BoostDraw = b: int | 0 <= b <= 5

  /** The random outcomes of one run: the number of emotions to draw, the
      emotion drawn at each position, and the base confidence and boost drawn
      for the emotion at each position of the de-duplicated list. */
  datatype Draws = Draws(
    count: DrawCount,
    pick: nat -> EmotionIndex,
    base: nat -> BaseDraw,
    boost: nat -> BoostDraw)

  /** The names of a list of emotions, position by position. */
  function Names(es: seq<Emotion>): (ns: seq<string>)
    ensures |ns| == |es|
    ensures forall i :: 0 <= i < |es| ==> ns[i] == es[i].name
  {
    seq(|es|, i requires 0 <= i < |es| => es[i].name)
  }

  /** The emotion names the worker knows. */
  function PossibleNames(): seq<string> {
    Names(PossibleEmotions)
  }

  /** `selected_emotions`: the `count` weighted draws, in order. */
  function Selected(d: Draws): (r: seq<Emotion>)
    ensures |r| == d.count
    ensures forall e :: e in r ==> e in PossibleEmotions
  {
    seq(d.count, i requires 0 <= i < d.count => PossibleEmotions[d.pick(i)])
  }

  /** `unique_emotions`: the loop that keeps an emotion only if its label is
      not yet in `seen_labels`. */
  function UniqueEmotions(selected: seq<Emotion>): (r: seq<Emotion>)
    ensures |r| <= |selected|
    ensures forall e :: e in r ==> e in selected
    ensures forall i, j :: 0 <= i < j < |r| ==> r[i].name != r[j].name
    decreases |selected|
  {
    if selected == [] then []
    else
      var n := |selected| - 1;
      var u := UniqueEmotions(selected[..n]);
      if selected[n].name in Names(u) then u else u + [selected[n]]
  }

  lemma NamesSnoc(es: seq<Emotion>, e: Emotion)
    ensures Names(es + [e]) == Names(es) + [e.name]
  {
  }

  /** The labels of the kept emotions are the drawn labels de-duplicated in
      first-occurrence order. */
  lemma {:induction false} UniqueEmotionsSpec(selected: seq<Emotion>)
    ensures Names(UniqueEmotions(selected)) == Dedup(Names(selected))
    decreases |selected|
  {
    if selected != [] {
      var n := |selected| - 1;
      var e := selected[n];
      var u := UniqueEmotions(selected[..n]);
      UniqueEmotionsSpec(selected[..n]);
      NamesSnoc(selected[..n], e);
      assert selected[..n] + [e] == selected;
      DedupSnoc(Names(selected[..n]), e.name);
      if e.name !in Names(u) {
        NamesSnoc(u, e);
      }
    }
  }

  /** `min(10, base_confidence + boost)`, the boost drawn only for an
      emotion whose likelihood exceeds 15. */
  function Confidence(e: Emotion, base: BaseDraw, boost: BoostDraw): (c: int)
    ensures 1 <= c <= MaxConfidence
    ensures e.likelihood <= BoostThreshold ==> c == base
    ensures e.likelihood > BoostThreshold ==> base <= c <= base + boost
    ensures e.likelihood > BoostThreshold ==> c == base + boost || c == MaxConfidence
  {
    var b := if e.likelihood > BoostThreshold then boost else 0;
    if MaxConfidence <= base + b then MaxConfidence else base + b
  }

  /** A larger boost never lowers the confidence of an emotion, and a boost
      that stays under the cap raises it by exactly the boost. */
  lemma ConfidenceMonotone(e: Emotion, base: BaseDraw, b1: BoostDraw, b2: BoostDraw)
    requires b1 <= b2
    ensures Confidence(e, base, b1) <= Confidence(e, base, b2)
    ensures e.likelihood > BoostThreshold && base + b2 <= MaxConfidence ==>
              Confidence(e, base, b2) == Confidence(e, base, b1) + (b2 - b1)
  {
  }

  /** Exactly neutral (30) and happy (20) can be boosted; surprised, at
      exactly 15, cannot. */
  lemma BoostedEmotions(e: Emotion)
    requires e in PossibleEmotions
    ensures e.likelihood > BoostThreshold <==> e.name == "neutral" || e.name == "happy"
  {
  }

  /** `simulate_emotion_detection` when nothing raises: at most one entry
      per draw, no label twice, every confidence in [1, 10]. */
  function Simulate(d: Draws): (r: seq<Utils.Entry>)
    ensures |r| <= d.count
    ensures forall i, j :: 0 <= i < j < |r| ==> r[i].name != r[j].name
    ensures forall i :: 0 <= i < |r| ==> 1 <= r[i].value <= MaxConfidence
  {
    var u := UniqueEmotions(Selected(d));
    var r := seq(|u|, i requires 0 <= i < |u| => Utils.Entry(u[i].name, Confidence(u[i], d.base(i), d.boost(i))));
    assert forall i :: 0 <= i < |r| ==>
             r[i] == Utils.Entry(u[i].name, Confidence(u[i], d.base(i), d.boost(i)));
    r
  }

  /** The simulated result has one entry per distinct drawn label, in the
      order first drawn, between 1 and 3 of them, every label a known
      emotion and every value in [1, 10]; the value is the base draw itself
      for an emotion that cannot be boosted. */
  lemma SimulateSpec(d: Draws)
    ensures Utils.Labels(Simulate(d)) == Dedup(Names(Selected(d)))
    ensures Distinct(Utils.Labels(Simulate(d)))
    ensures 1 <= |Simulate(d)| <= 3
    ensures forall i :: 0 <= i < |Simulate(d)| ==> Simulate(d)[i].name in PossibleNames()
    ensures forall i :: 0 <= i < |Simulate(d)| ==> 1 <= Simulate(d)[i].value <= MaxConfidence
    ensures forall i, e :: 0 <= i < |Simulate(d)| && e in PossibleEmotions && e.name == Simulate(d)[i].name ==>
              (e.likelihood <= BoostThreshold ==> Simulate(d)[i].value == d.base(i))
  {
    var sel := Selected(d);
    var u := UniqueEmotions(sel);
    var r := Simulate(d);
    UniqueEmotionsSpec(sel);
    assert Utils.Labels(r) == Names(u);
    DedupDistinct(Names(sel));
    DedupShorter(Names(sel));
    assert sel[0].name in Names(sel);
    DedupMembers(Names(sel));
    assert |u| >= 1;
    forall i | 0 <= i < |r| ensures r[i].name in PossibleNames() {
      assert u[i] in sel;
      assert u[i] in PossibleEmotions;
    }
    forall i, e | 0 <= i < |r| && e in PossibleEmotions && e.name == r[i].name
      ensures e.likelihood <= BoostThreshold ==> r[i].value == d.base(i)
    {
      assert u[i] in PossibleEmotions;
      NamesDetermineEmotion(u[i], e);
    }
  }

  /** Labels are unique in `POSSIBLE_EMOTIONS`, so a label names one entry. */
  lemma NamesDetermineEmotion(a: Emotion, b: Emotion)
    requires a in PossibleEmotions && b in PossibleEmotions && a.name == b.name
    ensures a == b
  {
  }

  /** `simulate_emotion_detection` with its `except` branch: `raised` says
      whether an exception escaped the simulation. Either way the answer is
      never empty: one to three known labels, every confidence in [1, 10]. */
  function SimulateEmotionDetection(d: Draws, raised: bool): (r: seq<Utils.Entry>)
    ensures 1 <= |r| <= 3
    ensures forall i :: 0 <= i < |r| ==> r[i].name in PossibleNames() && 1 <= r[i].value <= MaxConfidence
    ensures raised ==> r == Fallback
  {
    SimulateSpec(d);
    assert PossibleNames()[0] == "neutral";
    if raised then Fallback else Simulate(d)
  }

  /** The `facePoints` list the worker prints. `decoded` says whether
      `base64.b64decode` succeeded; on failure the outer `except` prints the
      fallback. An empty detection is replaced by the fallback as well. */
  function EmittedFacePoints(decoded: bool, raised: bool, d: Draws): (r: seq<Utils.Entry>)
    ensures !decoded || raised ==> r == Fallback
  {
    if !decoded then Fallback
    else
      var detected := SimulateEmotionDetection(d, raised);
      if detected == [] then Fallback else detected
  }

  /** Whatever happens, the printed list is non-empty, has at most three
      entries with distinct known labels, and every value lies in [1, 10]. */
  lemma EmittedWellFormed(decoded: bool, raised: bool, d: Draws)
    ensures var r := EmittedFacePoints(decoded, raised, d);
            && 1 <= |r| <= 3
            && Distinct(Utils.Labels(r))
            && (forall i :: 0 <= i < |r| ==> r[i].name in PossibleNames())
            && (forall i :: 0 <= i < |r| ==> 1 <= r[i].value <= MaxConfidence)
  {
    SimulateSpec(d);
    assert PossibleNames()[0] == "neutral";
  }

  /** When the image decodes and nothing raises, the printed list is the
      simulated one: the fallback is never needed on that path. */
  lemma EmittedIsSimulation(d: Draws)
    ensures EmittedFacePoints(true, false, d) == Simulate(d)
  {
    SimulateSpec(d);
  }
}
