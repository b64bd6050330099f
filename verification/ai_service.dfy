/** The pure parts of the AI service (core/ai_service.py): the brace-matching scanner that finds a
    JSON object or array in a model reply, emotion-score normalisation, and the short-circuits in
    front of the three backend calls. The backend's reply is a parameter: None stands for any
    exception raised while calling it or reading its text. */
module AiService {
  import opened Wrappers
  import opened JsonValues
  import opened PyStrings

  /** How far the running depth moves on one character. */
  function StepOf(c: char, open: char, close: char): int {
    if c == open then 1 else if c == close then -1 else 0
  }

  /** The running depth after `s`: opening minus closing characters. */
  function Depth(s: string, open: char, close: char): int
    decreases |s|
  {
    if s == [] then 0 else Depth(s[..|s| - 1], open, close) + StepOf(s[|s| - 1], open, close)
  }

  /** A span that starts with `open`, ends with `close`, and parses. */
  ghost predicate ParsedSpan(parse: TextParser, text: string, open: char, close: char, a: int, b: int, j: Json) {
    0 <= a < b <= |text| && text[a] == open && text[b - 1] == close && parse(text[a..b]) == Some(j)
  }

  /** The loop of `_extract_json` from index `i` on, with the running `depth` and the candidate
      `start` (-1 when there is none). The first time the depth comes back to 0 with a candidate,
      the span is parsed: a success is returned, a failure drops the candidate. The depth is not
      reset and may go below 0. */
  function Scan(parse: TextParser, text: string, open: char, close: char, i: nat, depth: int, start: int): (r: Option<Json>)
    requires i <= |text|
    requires start == -1 || (0 <= start < i && text[start] == open)
    ensures r.Some? ==> exists a, b :: ParsedSpan(parse, text, open, close, a, b, r.value)
    decreases |text| - i
  {
    if i == |text| then None
    else if text[i] == open then
      Scan(parse, text, open, close, i + 1, depth + 1, if start == -1 then i else start)
    else if text[i] == close then
      if depth - 1 == 0 && start != -1 then
        match parse(text[start..i + 1])
        case Some(j) =>
          assert ParsedSpan(parse, text, open, close, start, i + 1, j);
          Some(j)
        case None => Scan(parse, text, open, close, i + 1, depth - 1, -1)
      else Scan(parse, text, open, close, i + 1, depth - 1, start)
    else Scan(parse, text, open, close, i + 1, depth, start)
  }

  /** `_extract_json`: the first `{...}` span that balances and parses, else the whole text parsed,
      else None. */
  function ExtractJson(parse: TextParser, text: string): (r: Option<Json>)
    ensures r.Some? ==> r == parse(text) || exists a, b :: ParsedSpan(parse, text, '{', '}', a, b, r.value)
  {
    match Scan(parse, text, '{', '}', 0, 0, -1)
    case Some(j) => Some(j)
    case None => parse(text)
  }

  /** `_extract_json_array`: the first `[...]` span that balances and parses, else the whole text
      parsed when that is a list, else the empty list. */
  function ExtractJsonArray(parse: TextParser, text: string): (r: Json)
    ensures r == JArr([]) || Some(r) == parse(text) || exists a, b :: ParsedSpan(parse, text, '[', ']', a, b, r)
  {
    match Scan(parse, text, '[', ']', 0, 0, -1)
    case Some(j) => j
    case None =>
      match parse(text)
      case Some(JArr(items)) => JArr(items)
      case _ => JArr([])
  }

  /** Characters other than the two brackets leave the depth alone and never start a candidate. */
  lemma {:induction false} ScanSkips(parse: TextParser, text: string, open: char, close: char, i: nat, n: nat)
    requires i + n <= |text|
    requires forall m :: i <= m < i + n ==> text[m] != open && text[m] != close
    ensures Scan(parse, text, open, close, i, 0, -1) == Scan(parse, text, open, close, i + n, 0, -1)
    decreases n
  {
    if n > 0 {
      ScanSkips(parse, text, open, close, i + 1, n - 1);
    }
  }

  lemma DepthSnoc(s: string, k: nat, open: char, close: char)
    requires k < |s|
    ensures Depth(s[..k + 1], open, close) == Depth(s[..k], open, close) + StepOf(s[k], open, close)
  {
    assert s[..k + 1][..k] == s[..k];
  }

  /** Inside a span whose proper prefixes all have positive depth the candidate is kept until the
      span's last character closes it. */
  lemma {:induction false} ScanInside(parse: TextParser, text: string, open: char, close: char, base: nat,
                                      span: string, k: nat, j: Json)
    requires open != close
    requires base + |span| <= |text| && text[base..base + |span|] == span
    requires |span| >= 2 && span[0] == open && span[|span| - 1] == close
    requires 1 <= k < |span|
    requires forall m :: 1 <= m < |span| ==> Depth(span[..m], open, close) > 0
    requires Depth(span, open, close) == 0
    requires parse(span) == Some(j)
    ensures Scan(parse, text, open, close, base + k, Depth(span[..k], open, close), base) == Some(j)
    decreases |span| - k
  {
    assert text[base] == span[0];
    assert text[base + k] == span[k];
    DepthSnoc(span, k, open, close);
    var d := Depth(span[..k], open, close);
    if k + 1 < |span| {
      assert Depth(span[..k + 1], open, close) > 0;
      assert Scan(parse, text, open, close, base + k, d, base)
        == Scan(parse, text, open, close, base + k + 1, Depth(span[..k + 1], open, close), base);
      ScanInside(parse, text, open, close, base, span, k + 1, j);
    } else {
      assert span[..k + 1] == span;
      assert text[base..base + k + 1] == span;
    }
  }

  /** The scanner returns the parse of the first balanced span when the text before it holds no
      bracket at all. */
  lemma FirstBalancedSpan(parse: TextParser, prefix: string, span: string, suffix: string, open: char, close: char, j: Json)
    requires open != close
    requires forall m :: 0 <= m < |prefix| ==> prefix[m] != open && prefix[m] != close
    requires |span| >= 2 && span[0] == open && span[|span| - 1] == close
    requires forall m :: 1 <= m < |span| ==> Depth(span[..m], open, close) > 0
    requires Depth(span, open, close) == 0
    requires parse(span) == Some(j)
    ensures Scan(parse, prefix + span + suffix, open, close, 0, 0, -1) == Some(j)
  {
    var text := prefix + span + suffix;
    var base := |prefix|;
    assert text[base..base + |span|] == span;
    ScanSkips(parse, text, open, close, 0, base);
    assert text[base] == open;
    assert span[..1] == [open];
    assert Depth(span[..1], open, close) == 1 by {
      assert span[..1][..0] == [];
    }
    ScanInside(parse, text, open, close, base, span, 1, j);
  }

  /** The first index from `from` on that holds `open`, or `|text|`. */
  function NextOpen(text: string, open: char, from: nat): (m: nat)
    requires from <= |text|
    ensures from <= m <= |text| && (m < |text| ==> text[m] == open)
    ensures forall k :: from <= k < m ==> text[k] != open
    decreases |text| - from
  {
    if from == |text| || text[from] == open then from else NextOpen(text, open, from + 1)
  }

  /** Index `k` holds `close` and brings the depth of the prefix through it to 0. */
  predicate ZeroClose(text: string, open: char, close: char, k: nat)
    requires k < |text|
  {
    text[k] == close && Depth(text[..k + 1], open, close) == 0
  }

  /** The first index from `from` on that is a zero-depth close, or `|text|`. */
  function NextZeroClose(text: string, open: char, close: char, from: nat): (m: nat)
    requires from <= |text|
    ensures from <= m <= |text| && (m < |text| ==> ZeroClose(text, open, close, m))
    ensures forall k :: from <= k < m ==> !ZeroClose(text, open, close, k)
    decreases |text| - from
  {
    if from == |text| || ZeroClose(text, open, close, from) then from
    else NextZeroClose(text, open, close, from + 1)
  }

  /** The scan stated over whole prefixes rather than a running state: from `from`, the candidate is
      the next `open`; its attempt is the next `close` at which the depth of the whole prefix is 0;
      a span that parses is the answer, and one that does not is dropped and the search resumes after
      it. */
  function FirstSpan(parse: TextParser, text: string, open: char, close: char, from: nat): (r: Option<Json>)
    requires from <= |text|
    ensures r.Some? ==> exists a, b :: from <= a && ParsedSpan(parse, text, open, close, a, b, r.value)
                                      && Depth(text[..b], open, close) == 0
    decreases |text| - from
  {
    var a := NextOpen(text, open, from);
    if a == |text| then None
    else
      var c := NextZeroClose(text, open, close, a);
      if c == |text| then None
      else
        match parse(text[a..c + 1])
        case Some(j) =>
          assert ParsedSpan(parse, text, open, close, a, c + 1, j);
          Some(j)
        case None => FirstSpan(parse, text, open, close, c + 1)
  }

  /** With no candidate, the scanner from `i` answers what the reference does from `i`. */
  lemma {:induction false} ScanFree(parse: TextParser, text: string, open: char, close: char, i: nat, depth: int)
    requires open != close
    requires i <= |text| && depth == Depth(text[..i], open, close)
    ensures Scan(parse, text, open, close, i, depth, -1) == FirstSpan(parse, text, open, close, i)
    decreases |text| - i, 1
  {
    if i == |text| {
      assert NextOpen(text, open, i) == i;
    } else {
      DepthSnoc(text, i, open, close);
      if text[i] == open {
        assert NextOpen(text, open, i) == i;
        assert !ZeroClose(text, open, close, i);
        assert Scan(parse, text, open, close, i, depth, -1) == Scan(parse, text, open, close, i + 1, depth + 1, i);
        ScanLive(parse, text, open, close, i + 1, depth + 1, i);
        FirstSpanAt(parse, text, open, close, i);
      } else {
        var d := depth + StepOf(text[i], open, close);
        assert Scan(parse, text, open, close, i, depth, -1) == Scan(parse, text, open, close, i + 1, d, -1);
        FirstSpanSkip(parse, text, open, close, i);
        ScanFree(parse, text, open, close, i + 1, d);
      }
    }
  }

  /** From an `open` the reference attempts that candidate first. */
  lemma FirstSpanAt(parse: TextParser, text: string, open: char, close: char, a: nat)
    requires a < |text| && text[a] == open
    ensures var c := NextZeroClose(text, open, close, a);
      FirstSpan(parse, text, open, close, a)
        == if c == |text| then None
           else match parse(text[a..c + 1])
                case Some(j) => Some(j)
                case None => FirstSpan(parse, text, open, close, c + 1)
  {
    assert NextOpen(text, open, a) == a;
  }

  /** A character that is not `open` can be skipped by the reference. */
  lemma FirstSpanSkip(parse: TextParser, text: string, open: char, close: char, i: nat)
    requires i < |text| && text[i] != open
    ensures FirstSpan(parse, text, open, close, i) == FirstSpan(parse, text, open, close, i + 1)
  {
    assert NextOpen(text, open, i) == NextOpen(text, open, i + 1);
  }

  /** With candidate `a` and no zero-depth close since it, the scanner from `i` attempts `a` at the
      next zero-depth close and, on a parse failure, carries on as the reference does after it. */
  lemma {:induction false} ScanLive(parse: TextParser, text: string, open: char, close: char, i: nat, depth: int, a: nat)
    requires open != close
    requires a < i <= |text| && text[a] == open && depth == Depth(text[..i], open, close)
    requires NextZeroClose(text, open, close, a) >= i
    ensures var c := NextZeroClose(text, open, close, a);
      Scan(parse, text, open, close, i, depth, a)
        == if c == |text| then None
           else match parse(text[a..c + 1])
                case Some(j) => Some(j)
                case None => FirstSpan(parse, text, open, close, c + 1)
    decreases |text| - i, 0
  {
    if i == |text| {
      assert Scan(parse, text, open, close, i, depth, a) == None;
    } else {
      DepthSnoc(text, i, open, close);
      var d := depth + StepOf(text[i], open, close);
      if ZeroClose(text, open, close, i) {
        assert NextZeroClose(text, open, close, a) == i;
        assert text[i] == close && depth - 1 == 0;
        if parse(text[a..i + 1]).None? {
          assert Scan(parse, text, open, close, i, depth, a) == Scan(parse, text, open, close, i + 1, d, -1);
          ScanFree(parse, text, open, close, i + 1, d);
        }
      } else {
        assert NextZeroClose(text, open, close, a) >= i + 1;
        assert Scan(parse, text, open, close, i, depth, a) == Scan(parse, text, open, close, i + 1, d, a);
        ScanLive(parse, text, open, close, i + 1, d, a);
      }
    }
  }

  /** The scanner, started as `_extract_json` starts it, returns exactly what the reference returns:
      the parse of the first candidate whose zero-depth close gives a span that parses, every earlier
      attempt having failed to parse; None when there is no such attempt. */
  lemma ScanIsFirstSpan(parse: TextParser, text: string, open: char, close: char)
    requires open != close
    ensures Scan(parse, text, open, close, 0, 0, -1) == FirstSpan(parse, text, open, close, 0)
  {
    assert text[..0] == [];
    ScanFree(parse, text, open, close, 0, 0);
  }

  /** `_extract_json` answers with the first attempted `{...}` span that parses, and falls back to
      the whole text only when no attempt parses. */
  lemma ExtractJsonIsFirstSpan(parse: TextParser, text: string)
    ensures ExtractJson(parse, text)
      == match FirstSpan(parse, text, '{', '}', 0)
         case Some(j) => Some(j)
         case None => parse(text)
  {
    ScanIsFirstSpan(parse, text, '{', '}');
  }

  /** `_extract_json_array` likewise with `[...]`, and the empty list when neither gives a list. */
  lemma ExtractJsonArrayIsFirstSpan(parse: TextParser, text: string)
    ensures ExtractJsonArray(parse, text)
      == match FirstSpan(parse, text, '[', ']', 0)
         case Some(j) => j
         case None => if parse(text).Some? && parse(text).value.JArr? then parse(text).value else JArr([])
  {
    ScanIsFirstSpan(parse, text, '[', ']');
  }

  /** An object embedded in prose is what `_extract_json` returns. */
  lemma ObjectInProse(parse: TextParser, prefix: string, span: string, suffix: string, j: Json)
    requires forall m :: 0 <= m < |prefix| ==> prefix[m] != '{' && prefix[m] != '}'
    requires |span| >= 2 && span[0] == '{' && span[|span| - 1] == '}'
    requires forall m :: 1 <= m < |span| ==> Depth(span[..m], '{', '}') > 0
    requires Depth(span, '{', '}') == 0
    requires parse(span) == Some(j)
    ensures ExtractJson(parse, prefix + span + suffix) == Some(j)
  {
    FirstBalancedSpan(parse, prefix, span, suffix, '{', '}', j);
  }

  /** Without an opening bracket the scanner finds nothing, so the whole text is parsed. */
  lemma {:induction false} ScanWithoutOpen(parse: TextParser, text: string, open: char, close: char, i: nat, depth: int)
    requires i <= |text|
    requires forall m :: i <= m < |text| ==> text[m] != open
    ensures Scan(parse, text, open, close, i, depth, -1) == None
    decreases |text| - i
  {
    if i < |text| {
      if text[i] == close {
        ScanWithoutOpen(parse, text, open, close, i + 1, depth - 1);
      } else {
        ScanWithoutOpen(parse, text, open, close, i + 1, depth);
      }
    }
  }

  lemma NoBraceFallsBack(parse: TextParser, text: string)
    requires forall m :: 0 <= m < |text| ==> text[m] != '{'
    ensures ExtractJson(parse, text) == parse(text)
  {
    ScanWithoutOpen(parse, text, '{', '}', 0, 0);
  }

  lemma NoBracketListOrEmpty(parse: TextParser, text: string)
    requires forall m :: 0 <= m < |text| ==> text[m] != '['
    ensures ExtractJsonArray(parse, text) == if parse(text).Some? && parse(text).value.JArr? then parse(text).value else JArr([])
  {
    ScanWithoutOpen(parse, text, '[', ']', 0, 0);
  }

  /** One recent message as the database hands it over. */
  datatype ChatLine = ChatLine(sender: string, content: string)

  /** The conversation context: `sender: content` lines joined by newlines. */
  function Context(messages: seq<ChatLine>): string {
    Join("\n", seq(|messages|, i requires 0 <= i < |messages| => messages[i].sender + ": " + messages[i].content))
  }

  /** The four emotions kept, in output order. */
  const EMOTIONS: seq<string> := ["neutral", "happy", "tense", "negative"]

  type Scores = map<string, real>

  /** The answer for an empty history, a reply that is not a non-empty object, a zero total and any
      error. */
  const NEUTRAL: Scores := map["neutral" := 1.0]

  /** Python's `float(v)`: None stands for the ValueError or TypeError it raises. `parseFloat` is
      `float` on a string. */
  function ToFloat(v: Json, parseFloat: string -> Option<real>): (r: Option<real>)
    ensures v.JInt? ==> r == Some(v.i as real)
    ensures v.JFloat? ==> r == Some(v.r)
    ensures v.JNull? || v.JArr? || v.JObj? ==> r.None?
  {
    match v
    case JInt(i) => Some(i as real)
    case JFloat(x) => Some(x)
    case JBool(b) => Some(if b then 1.0 else 0.0)
    case JStr(t) => parseFloat(t)
    case _ => None
  }

  /** The weight of one emotion: 0.0 when the key is missing, the converted value otherwise. */
  function Weight(data: Object, key: string, parseFloat: string -> Option<real>): Option<real> {
    if key in data then ToFloat(data[key], parseFloat) else Some(0.0)
  }

  function Sum(s: Scores): real
    requires forall k :: k in EMOTIONS ==> k in s
  {
    s["neutral"] + s["happy"] + s["tense"] + s["negative"]
  }

  /** The defaults updated with the reply's four weights and divided by their total when it is
      positive; `{"neutral": 1.0}` otherwise, or when a weight does not convert. */
  function Normalise(data: Object, parseFloat: string -> Option<real>): (r: Scores)
    ensures r == NEUTRAL || (r.Keys == {"neutral", "happy", "tense", "negative"} && Sum(r) == 1.0)
  {
    var n := Weight(data, "neutral", parseFloat);
    var h := Weight(data, "happy", parseFloat);
    var t := Weight(data, "tense", parseFloat);
    var g := Weight(data, "negative", parseFloat);
    if n.None? || h.None? || t.None? || g.None? then NEUTRAL
    else
      var total := n.value + h.value + t.value + g.value;
      if total > 0.0 then Shares(n.value, h.value, t.value, g.value) else NEUTRAL
  }

  /** Four weights with a positive total, each divided by the total. */
  function Shares(n: real, h: real, t: real, g: real): (r: Scores)
    requires n + h + t + g > 0.0
    ensures r.Keys == {"neutral", "happy", "tense", "negative"} && Sum(r) == 1.0
  {
    var total := n + h + t + g;
    SharesAddUp(n, h, t, g);
    map["neutral" := n / total, "happy" := h / total, "tense" := t / total, "negative" := g / total]
  }

  lemma SharesAddUp(n: real, h: real, t: real, g: real)
    requires n + h + t + g > 0.0
    ensures var total := n + h + t + g; n / total + h / total + t / total + g / total == 1.0
  {
    var total := n + h + t + g;
    assert n / total + h / total == (n + h) / total;
    assert (n + h) / total + t / total == (n + h + t) / total;
    assert (n + h + t) / total + g / total == total / total;
  }

  /** `analyze_emotion`, with whether the backend was called. */
  function AnalyzeEmotion(messages: seq<ChatLine>, reply: Option<string>, parse: TextParser,
                          parseFloat: string -> Option<real>): (r: (Scores, bool))
    ensures r.1 <==> messages != []
    ensures r.0 == NEUTRAL || (r.0.Keys == {"neutral", "happy", "tense", "negative"} && Sum(r.0) == 1.0)
    ensures reply.None? ==> r.0 == NEUTRAL
  {
    if messages == [] then (NEUTRAL, false)
    else if reply.None? then (NEUTRAL, true)
    else
      match ExtractJson(parse, Strip(reply.value))
      case Some(JObj(data)) => if data != map[] then (Normalise(data, parseFloat), true) else (NEUTRAL, true)
      case _ => (NEUTRAL, true)
  }

  /** Keys other than the four emotions are ignored, whatever their values. */
  lemma UnknownKeysIgnored(data: Object, key: string, v: Json, parseFloat: string -> Option<real>)
    requires key !in EMOTIONS
    ensures Normalise(data[key := v], parseFloat) == Normalise(data, parseFloat)
  {
    assert forall e :: e in EMOTIONS ==> Weight(data[key := v], e, parseFloat) == Weight(data, e, parseFloat);
  }

  /** Weights that do not add up to something positive give the neutral answer. */
  lemma NonPositiveTotalNeutral(n: real, h: real, t: real, g: real, parseFloat: string -> Option<real>)
    requires n + h + t + g <= 0.0
    ensures Normalise(map["neutral" := JFloat(n), "happy" := JFloat(h), "tense" := JFloat(t), "negative" := JFloat(g)],
                      parseFloat) == NEUTRAL
  {
  }

  /** `extract_memories`, with whether the backend was called: fewer than two messages give [] at
      once; otherwise the list found in the reply, and [] for anything else. */
  function ExtractMemories(messages: seq<ChatLine>, reply: Option<string>, parse: TextParser): (r: (seq<Json>, bool))
    ensures r.1 <==> |messages| >= 2
    ensures !r.1 || reply.None? ==> r.0 == []
  {
    if |messages| < 2 then ([], false)
    else if reply.None? then ([], true)
    else
      var found := ExtractJsonArray(parse, Strip(reply.value));
      (if found.JArr? then found.items else [], true)
  }

  /** A reply whose text holds no bracket is parsed whole; a list is taken as it is. */
  lemma MemoriesFromWholeReply(messages: seq<ChatLine>, reply: string, parse: TextParser, items: seq<Json>)
    requires |messages| >= 2
    requires '[' !in Strip(reply)
    requires parse(Strip(reply)) == Some(JArr(items))
    ensures ExtractMemories(messages, Some(reply), parse) == (items, true)
  {
    WholeList(parse, Strip(reply), items);
  }

  lemma WholeList(parse: TextParser, text: string, items: seq<Json>)
    requires '[' !in text
    requires parse(text) == Some(JArr(items))
    ensures ExtractJsonArray(parse, text) == JArr(items)
  {
    NoBracketListOrEmpty(parse, text);
  }

  /** The planning keywords: tomorrow, next week, weekend, plan, arrange, go out, dinner party, study. */
  const KEYWORDS: seq<string> := ["明天", "下周", "周末", "计划", "安排", "出去玩", "聚餐", "学习"]

  /** `recent_messages[-5:]`. */
  function LastFive(messages: seq<ChatLine>): (r: seq<ChatLine>)
    ensures |r| == if |messages| < 5 then |messages| else 5
    ensures r == messages[|messages| - |r|..]
  {
    if |messages| <= 5 then messages else messages[|messages| - 5..]
  }

  /** `any(keyword in context for keyword in keywords)`. */
  predicate MentionsPlan(context: string) {
    exists k | 0 <= k < |KEYWORDS| :: Contains(context, KEYWORDS[k])
  }

  /** More text on either side never closes the gate: a keyword found stays found. */
  lemma MentionsPlanExtends(a: string, b: string)
    requires MentionsPlan(a)
    ensures MentionsPlan(a + b) && MentionsPlan(b + a)
  {
    var k :| 0 <= k < |KEYWORDS| && Contains(a, KEYWORDS[k]);
    var w := KEYWORDS[k];
    var i :| 0 <= i <= |a| && OccursAt(a, w, i);
    assert (a + b)[i..i + |w|] == a[i..i + |w|];
    assert OccursAt(a + b, w, i);
    assert (b + a)[|b| + i..|b| + i + |w|] == a[i..i + |w|];
    assert OccursAt(b + a, w, |b| + i);
  }

  /** `generate_suggestion`, with whether the backend was called: only the last five messages are
      looked at; without a keyword there is no call; a reply of null, none or nothing (in any case)
      and a reply that is not an object give None. */
  function GenerateSuggestion(messages: seq<ChatLine>, reply: Option<string>, parse: TextParser): (r: (Option<Object>, bool))
    ensures r.1 <==> MentionsPlan(Context(LastFive(messages)))
    ensures r.0.Some? ==> reply.Some? && Lower(Strip(reply.value)) !in ["null", "none", ""]
    ensures r.0.Some? ==> ExtractJson(parse, Strip(reply.value)) == Some(JObj(r.0.value))
  {
    if !MentionsPlan(Context(LastFive(messages))) then (None, false)
    else if reply.None? then (None, true)
    else
      var content := Strip(reply.value);
      if Lower(content) in ["null", "none", ""] then (None, true)
      else
        match ExtractJson(parse, content)
        case Some(JObj(m)) => (Some(m), true)
        case _ => (None, true)
  }

  /** Messages older than the last five never matter. */
  lemma OnlyLastFiveCount(older: seq<ChatLine>, recent: seq<ChatLine>, reply: Option<string>, parse: TextParser)
    requires |recent| == 5
    ensures GenerateSuggestion(older + recent, reply, parse) == GenerateSuggestion(recent, reply, parse)
  {
    assert LastFive(older + recent) == recent;
  }

  /** A reply that strips to "null", "none" or nothing gives no suggestion even though the backend
      was asked. */
  lemma NullishReplyNone(messages: seq<ChatLine>, reply: string, parse: TextParser)
    requires MentionsPlan(Context(LastFive(messages)))
    requires Lower(Strip(reply)) in ["null", "none", ""]
    ensures GenerateSuggestion(messages, Some(reply), parse) == (None, true)
  {
  }

  /** "NULL" is one such reply. */
  lemma NullIsNullish()
    ensures Lower(Strip("NULL")) == "null"
  {
    StripUnchanged("NULL");
    assert LowerChar('N') == 'n' && LowerChar('U') == 'u' && LowerChar('L') == 'l';
  }
}
