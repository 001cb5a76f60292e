/** The keys a decision issue carries at the end of its body, in a comment GitHub
    does not show (scripts/decision_issue.py). Reading them back does not depend on
    what stands in front, and titles in front may hold anything. */
module KeysMarker {
  const OPEN := "<!-- projektpflege-keys: "
  const CLOSE := " -->"

  predicate IsHex(c: char) {
    '0' <= c <= '9' || 'a' <= c <= 'f'
  }

  predicate IsBlank(c: char) {
    c in {' ', '\n', '\t', '\r', '\U{0B}', '\U{0C}'}
  }

  /** What may stand between the opening and the closing. */
  predicate InKeys(c: char) {
    IsHex(c) || c == ','
  }

  predicate AllBlank(text: string) {
    forall i :: 0 <= i < |text| ==> IsBlank(text[i])
  }

  /** A key as the digest writes it. */
  predicate IsKey(key: string) {
    key != "" && forall i :: 0 <= i < |key| ==> IsHex(key[i])
  }

  function Join(keys: seq<string>): string {
    if keys == [] then "" else if |keys| == 1 then keys[0] else keys[0] + "," + Join(keys[1..])
  }

  function Marker(keys: seq<string>): string {
    OPEN + Join(keys) + CLOSE
  }

  /** The pattern of the source at one position: the opening, hex digits and commas,
      the closing, and nothing but white space to the end of the body. */
  ghost predicate MatchesAt(body: string, at: nat, text: string) {
    && at <= |body| && (forall i :: 0 <= i < |text| ==> InKeys(text[i]))
    && exists blank :: AllBlank(blank) && body[at..] == OPEN + text + CLOSE + blank
  }

  function Split(text: string): seq<string> {
    if text == "" then [""]
    else if text[0] == ',' then [""] + Split(text[1..])
    else
      var rest := Split(text[1..]);
      [[text[0]] + rest[0]] + rest[1..]
  }

  /** What is read: the parts between the commas that are not empty. */
  ghost function ParseKeys(body: string): set<string> {
    if exists at: nat, text: string :: MatchesAt(body, at, text) then
      var at: nat, text: string :| MatchesAt(body, at, text);
      set key | key in Split(text) && key != ""
    else {}
  }

  lemma {:induction false} JoinHasNoStrangers(keys: seq<string>)
    requires forall i :: 0 <= i < |keys| ==> IsKey(keys[i])
    ensures forall i :: 0 <= i < |Join(keys)| ==> InKeys(Join(keys)[i])
  {
    if |keys| > 1 {
      JoinHasNoStrangers(keys[1..]);
    }
  }

  /** Behind the first character of a match no angle bracket opens. */
  lemma {:induction false} OneOpening(text: string, blank: string)
    requires forall k :: 0 <= k < |text| ==> InKeys(text[k])
    requires forall k :: 0 <= k < |blank| ==> IsBlank(blank[k])
    ensures OPEN + text + CLOSE + blank == ['<'] + (OPEN[1..] + text + CLOSE + blank)
    ensures '<' !in OPEN[1..] + text + CLOSE + blank
  {
    assert OPEN == ['<'] + OPEN[1..];
    assert '<' !in OPEN[1..];
    assert '<' !in CLOSE;
    assert '<' !in text;
    assert '<' !in blank;
  }

  /** A position from which only the first character opens is the last opening. */
  lemma {:induction false} LastOpening(body: string, at: nat, tail: string)
    requires at <= |body| && body[at..] == ['<'] + tail && '<' !in tail
    ensures at < |body| && body[at] == '<'
    ensures forall k :: at < k < |body| ==> body[k] != '<'
  {
    assert |body[at..]| == 1 + |tail|;
    assert body[at] == body[at..][0];
    forall k | at < k < |body| ensures body[k] != '<' {
      assert body[k] == body[at..][k - at] == tail[k - at - 1];
    }
  }

  /** The first blank behind the opening is the one that begins the closing. */
  lemma {:induction false} FirstBlank(text: string, rest: string)
    requires forall k :: 0 <= k < |text| ==> InKeys(text[k])
    ensures (text + (CLOSE + rest))[|text|] == ' '
    ensures forall k :: 0 <= k < |text| ==> (text + (CLOSE + rest))[k] != ' '
  {
    assert CLOSE[0] == ' ';
  }

  lemma {:induction false} SameText(own: string, text: string, blank: string)
    requires OPEN + own + CLOSE == OPEN + text + CLOSE + blank
    requires forall k :: 0 <= k < |own| ==> InKeys(own[k])
    requires forall k :: 0 <= k < |text| ==> InKeys(text[k])
    ensures own == text
  {
    var n := |OPEN|;
    assert own + (CLOSE + "") == (OPEN + own + CLOSE)[n..];
    assert text + (CLOSE + blank) == (OPEN + text + CLOSE + blank)[n..];
    FirstBlank(own, "");
    FirstBlank(text, blank);
    assert |own| == |text|;
    assert own == (own + (CLOSE + ""))[..|own|];
    assert text == (text + (CLOSE + blank))[..|own|];
  }

  /** A match begins at the last opening angle bracket of the body. */
  lemma {:induction false} MatchIsLast(body: string, at: nat, text: string, blank: string)
    requires at <= |body| && body[at..] == OPEN + text + CLOSE + blank
    requires forall k :: 0 <= k < |text| ==> InKeys(text[k])
    requires AllBlank(blank)
    ensures at < |body| && body[at] == '<'
    ensures forall k :: at < k < |body| ==> body[k] != '<'
  {
    OneOpening(text, blank);
    LastOpening(body, at, OPEN[1..] + text + CLOSE + blank);
  }

  lemma {:induction false} OwnMarker(front: string, keys: seq<string>)
    ensures (front + Marker(keys))[|front|..] == OPEN + Join(keys) + CLOSE + ""
  {
    var marker := OPEN + Join(keys) + CLOSE;
    assert (front + marker)[|front|..] == marker;
    assert marker + "" == marker;
  }

  /** Whatever stands in front, the marker at the end is the only match. */
  lemma {:induction false} OnlyTheLastMarker(front: string, keys: seq<string>, at: nat, text: string)
    requires forall i :: 0 <= i < |keys| ==> IsKey(keys[i])
    requires MatchesAt(front + Marker(keys), at, text)
    ensures at == |front| && text == Join(keys)
  {
    var body, none := front + Marker(keys), "";
    var blank :| AllBlank(blank) && body[at..] == OPEN + text + CLOSE + blank;
    JoinHasNoStrangers(keys);
    MatchIsLast(body, at, text, blank);
    assert body[|front|..] == OPEN + Join(keys) + CLOSE + none by { OwnMarker(front, keys); }
    MatchIsLast(body, |front|, Join(keys), none);
    SameText(Join(keys), text, blank);
  }

  lemma {:induction false} SplitKey(key: string, rest: string)
    requires forall i :: 0 <= i < |key| ==> IsHex(key[i])
    ensures Split(key + "," + rest) == [key] + Split(rest)
    ensures Split(key) == [key]
  {
    if key == "" {
      assert key + "," + rest == "," + rest && ("," + rest)[1..] == rest;
    } else {
      SplitKey(key[1..], rest);
      assert (key + "," + rest)[1..] == key[1..] + "," + rest;
      assert [key[0]] + key[1..] == key;
    }
  }

  lemma {:induction false} SplitJoin(keys: seq<string>)
    requires keys != [] && forall i :: 0 <= i < |keys| ==> IsKey(keys[i])
    ensures Split(Join(keys)) == keys
  {
    if |keys| == 1 {
      SplitKey(keys[0], "");
    } else {
      SplitKey(keys[0], Join(keys[1..]));
      SplitJoin(keys[1..]);
    }
  }

  /** Main result: the keys written are the keys read, whatever titles and other
      markers the text in front holds. */
  lemma {:induction false} KeysReadBack(front: string, keys: seq<string>)
    requires forall i :: 0 <= i < |keys| ==> IsKey(keys[i])
    ensures ParseKeys(front + Marker(keys)) == set key | key in keys
  {
    var body := front + Marker(keys);
    JoinHasNoStrangers(keys);
    var none := "";
    assert body[|front|..] == OPEN + Join(keys) + CLOSE + none;
    assert MatchesAt(body, |front|, Join(keys));
    forall at: nat, text: string | MatchesAt(body, at, text) ensures text == Join(keys) {
      OnlyTheLastMarker(front, keys, at, text);
    }
    if keys != [] {
      SplitJoin(keys);
    }
  }
}
