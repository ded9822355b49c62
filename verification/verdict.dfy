/** The rain verdict both tools derive from one precipitation volume. */
module Verdicts {

  datatype Verdict = WillNotRain | WillRain(volume: real) | Unknown

  const NoRainText: string := "It will not rain."
  const UnknownText: string := "I don't know."
  const RainPrefix: string := "It will rain. Precipitation volume: "

  /** A volume of exactly zero means no rain, a positive volume means rain of that
      volume, and anything else is not understood. */
  function Classify(v: real): (r: Verdict)
    ensures r == WillNotRain <==> v == 0.0
    ensures r.WillRain? <==> v > 0.0
    ensures r == Unknown <==> v < 0.0
    ensures r.WillRain? ==> r.volume == v
  {
    if v == 0.0 then WillNotRain
    else if v >= 0.0 then WillRain(v)
    else Unknown
  }

  /** The sentence reported for a verdict; `show` renders a volume as Python's
      f-string renders a float. */
  function Sentence(verdict: Verdict, show: real -> string): (s: string)
    ensures s == NoRainText <==> verdict == WillNotRain
    ensures s == UnknownText <==> verdict == Unknown
    ensures RainPrefix <= s <==> verdict.WillRain?
  {
    match verdict
    case WillNotRain => NoRainText
    case WillRain(v) => RainPrefix + show(v)
    case Unknown => UnknownText
  }

  /** The sentence tells the three verdicts apart whatever `show` prints, and tells
      rain volumes apart whenever `show` does. */
  lemma SentenceDeterminesVerdict(a: Verdict, b: Verdict, show: real -> string)
    requires Sentence(a, show) == Sentence(b, show)
    ensures a.WillRain? <==> b.WillRain?
    ensures a == WillNotRain <==> b == WillNotRain
    ensures a.WillRain? && b.WillRain? ==> show(a.volume) == show(b.volume)
  {
    var sa, sb := Sentence(a, show), Sentence(b, show);
    if a.WillRain? && b.WillRain? {
      assert show(a.volume) == sa[|RainPrefix|..] == sb[|RainPrefix|..] == show(b.volume);
    }
  }

  /** Reading a sentence back: it is the no-rain text exactly when the volume is zero,
      starts with the rain prefix exactly when the volume is positive, and is the
      don't-know text exactly when the volume is negative. */
  lemma SentenceOfVolume(v: real, show: real -> string)
    ensures Sentence(Classify(v), show) == NoRainText <==> v == 0.0
    ensures Sentence(Classify(v), show) == UnknownText <==> v < 0.0
    ensures RainPrefix <= Sentence(Classify(v), show) <==> v > 0.0
  {
  }
}
