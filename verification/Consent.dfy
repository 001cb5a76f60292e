/** When a sentence has read a draft out to the guest (api/agent/consent.py):
    the words of the draft without a gap, nothing but neutral words in front, and
    behind them the question the guest's yes answers. */
module Consent {
  type Words = seq<string>

  const YES: set<string> := {
    "ja", "jawohl", "jo", "genau", "richtig", "passt", "stimmt", "korrekt", "okay", "ok", "einverstanden",
    "bestaetigt", "bestätigt" }

  const FILLER: set<string> := {
    "gern", "gerne", "bitte", "danke", "dankeschön", "dankeschoen", "schön", "schoen", "vielen", "dank", "so",
    "das", "alles", "ist", "es", "gut", "super", "prima", "perfekt", "wunderbar", "klar", "in", "ordnung",
    "doch", "natürlich", "natuerlich", "sicher" }

  const LEAD_INS: seq<Words> := [
    ["ich", "wiederhole"], ["zur", "kontrolle"], ["zur", "sicherheit"], ["zusammengefasst"], ["also"] ]

  const CONFIRMATION_QUESTIONS: seq<Words> := [
    ["passt", "das", "so"], ["passt", "das"], ["passt", "es", "so"], ["stimmt", "das", "so"], ["stimmt", "das"],
    ["ist", "das", "so", "richtig"], ["ist", "das", "richtig"], ["ist", "das", "so", "korrekt"],
    ["ist", "das", "korrekt"] ]

  /** A read-back: the words of the draft, those of the question that closes it,
      and whether the draft is itself a question. */
  datatype Readback = Readback(draft: Words, question: Words, asksItself: bool)

  predicate PoliteWord(word: string) {
    word in YES || word in FILLER
  }

  predicate Polite(words: Words) {
    forall i :: 0 <= i < |words| ==> PoliteWord(words[i])
  }

  /** What may stand in front: polite words, then at most one whole lead-in. */
  ghost predicate Neutral(words: Words) {
    exists polite, leadIn :: words == polite + leadIn && Polite(polite) && (leadIn == [] || leadIn in LEAD_INS)
  }

  predicate AsksToConfirm(words: Words, own: Words) {
    words != [] && (words == own || words in CONFIRMATION_QUESTIONS)
  }

  predicate Closes(after: Words, r: Readback) {
    AsksToConfirm(after, r.question) || (r.asksItself && after == [])
  }

  /** The reference: the sentence is a neutral lead, the draft, and a closing question. */
  ghost predicate ReadsOut(said: Words, r: Readback) {
    r.draft != [] && exists lead, after :: said == lead + r.draft + after && Neutral(lead) && Closes(after, r)
  }

  /** No lead-in begins with a polite word, so taking all polite words first loses none. */
  lemma {:induction false} LeadInsAreNotPolite(leadIn: Words)
    requires leadIn in LEAD_INS
    ensures leadIn != [] && !PoliteWord(leadIn[0])
  {
    var k :| 0 <= k < |LEAD_INS| && LEAD_INS[k] == leadIn;
    assert leadIn[0] in ["ich", "zur", "zusammengefasst", "also"];
    assert |"ich"| == 3 && |"zur"| == 3 && |"zusammengefasst"| == 15 && |"also"| == 4;
    NotPolite("ich");
    NotPolite("zur");
    NotPolite("zusammengefasst");
    NotPolite("also");
  }

  lemma {:induction false} NotPolite(word: string)
    requires word in ["ich", "zur", "zusammengefasst", "also"]
    ensures !PoliteWord(word)
  {}

  /** A cut into polite words and a lead-in is at the first word that is not polite. */
  lemma {:induction false} CutAtFirstStrangeWord(words: Words, polite: Words, leadIn: Words, at: nat)
    requires words == polite + leadIn && Polite(polite) && (leadIn == [] || !PoliteWord(leadIn[0]))
    requires at <= |words| && Polite(words[..at]) && (at < |words| ==> !PoliteWord(words[at]))
    ensures at == |polite|
  {
    assert forall i :: 0 <= i < |polite| ==> words[i] == polite[i];
    assert forall i :: 0 <= i < at ==> words[i] == words[..at][i];
    assert leadIn != [] ==> words[|polite|] == leadIn[0];
  }

  lemma {:induction false} NeutralAt(words: Words, at: nat)
    requires at <= |words| && Polite(words[..at]) && (at < |words| ==> !PoliteWord(words[at]))
    ensures Neutral(words) <==> at == |words| || words[at..] in LEAD_INS
  {
    assert words == words[..at] + words[at..];
    if Neutral(words) {
      var polite, leadIn :| words == polite + leadIn && Polite(polite) && (leadIn == [] || leadIn in LEAD_INS);
      if leadIn != [] {
        LeadInsAreNotPolite(leadIn);
      }
      CutAtFirstStrangeWord(words, polite, leadIn, at);
      assert words[at..] == leadIn;
    }
  }

  /** The index loop of the source. */
  method NeutralStart(words: Words) returns (neutral: bool)
    ensures neutral <==> Neutral(words)
  {
    var at := 0;
    while at < |words| && PoliteWord(words[at])
      invariant 0 <= at <= |words| && Polite(words[..at])
    {
      at := at + 1;
    }
    NeutralAt(words, at);
    neutral := at == |words| || words[at..] in LEAD_INS;
  }

  ghost predicate CutsAt(said: Words, r: Readback, k: nat) {
    && k + |r.draft| <= |said| && said[k..k + |r.draft|] == r.draft
    && Closes(said[k + |r.draft|..], r) && Neutral(said[..k])
  }

  lemma {:induction false} Slices(lead: Words, draft: Words, after: Words)
    ensures var said := lead + draft + after;
            said[..|lead|] == lead && said[|lead|..|lead| + |draft|] == draft && said[|lead| + |draft|..] == after
  {}

  lemma {:induction false} Pieces(said: Words, k: nat, size: nat)
    requires k + size <= |said|
    ensures said == said[..k] + said[k..k + size] + said[k + size..]
  {}

  lemma {:induction false} ReadsOutAtSomeWord(said: Words, r: Readback)
    ensures ReadsOut(said, r) ==> exists k: nat :: CutsAt(said, r, k)
    ensures r.draft != [] && (exists k: nat :: CutsAt(said, r, k)) ==> ReadsOut(said, r)
  {
    if ReadsOut(said, r) {
      var lead, after :| said == lead + r.draft + after && Neutral(lead) && Closes(after, r);
      Slices(lead, r.draft, after);
      assert CutsAt(said, r, |lead|);
    }
    if r.draft != [] && exists k: nat :: CutsAt(said, r, k) {
      var k: nat :| CutsAt(said, r, k);
      Pieces(said, k, |r.draft|);
    }
  }

  /** The scan of the source: true exactly when the sentence can be cut that way. */
  method ReadOut(said: Words, r: Readback) returns (heard: bool)
    ensures heard <==> ReadsOut(said, r)
  {
    if r.draft == [] {
      return false;
    }
    heard := Scan(said, r);
    ReadsOutAtSomeWord(said, r);
  }

  method Scan(said: Words, r: Readback) returns (found: bool)
    ensures found <==> exists k: nat :: CutsAt(said, r, k)
  {
    var at := 0;
    while at + |r.draft| <= |said|
      invariant forall k :: 0 <= k < at ==> !CutsAt(said, r, k)
    {
      found := TryCut(said, r, at);
      if found {
        return;
      }
      at := at + 1;
    }
    return false;
  }

  method TryCut(said: Words, r: Readback, at: nat) returns (cuts: bool)
    requires at + |r.draft| <= |said|
    ensures cuts <==> CutsAt(said, r, at)
  {
    if said[at..at + |r.draft|] != r.draft || !Closes(said[at + |r.draft|..], r) {
      return false;
    }
    cuts := NeutralStart(said[..at]);
  }

  /** The sentence of the draft itself, said word for word, reads it out exactly
      when it holds words and asks for the yes. */
  lemma {:induction false} OwnSentenceReadsOut(r: Readback)
    ensures ReadsOut(r.draft + r.question, r) <==> r.draft != [] && (r.question != [] || r.asksItself)
  {
    var said := r.draft + r.question;
    var none: Words := [];
    assert none == none + none && Polite(none) && Neutral(none);
    assert said == none + r.draft + r.question;
    assert Closes(r.question, r) <==> r.question != [] || r.asksItself;
    if ReadsOut(said, r) && r.question == [] {
      var lead, after :| said == lead + r.draft + after && Neutral(lead) && Closes(after, r);
      assert |said| == |lead| + |r.draft| + |after|;
      assert after == [];
    }
  }
}
