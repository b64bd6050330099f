/** The application controller's AI schedule (main.py, config/settings.py): which analyses a sent
    or received message starts, the minimum histories they need, the memory de-duplication, and the
    fallbacks of the start dialog. The database is the message history and the stored memories; the
    backend replies are parameters. */
module AppController {
  import opened Wrappers
  import opened JsonValues
  import AiService

  const DEFAULT_PORT: int := 8888
  const DEFAULT_HOST_IP: string := "0.0.0.0"
  const DEFAULT_GUEST_IP: string := "127.0.0.1"
  const EMOTION_ANALYSIS_INTERVAL: int := 5
  const RECENT_MESSAGES_FOR_EMOTION: nat := 5
  const MEMORY_EXTRACTION_INTERVAL: int := 10
  const SUGGESTION_CHECK_INTERVAL: int := 3

  /** The controller's state: the role, whether an AI service exists, and the message counter. */
  datatype App = App(isHost: bool, hasAi: bool, messageCount: int)

  /** The analyses `_trigger_ai_analysis` starts, in the order it starts them. */
  datatype Analysis = EmotionAnalysis | MemoryExtraction | SuggestionCheck

  /** `_trigger_ai_analysis` for the current count. */
  function Triggered(count: int): (r: seq<Analysis>)
    ensures EmotionAnalysis in r <==> count % EMOTION_ANALYSIS_INTERVAL == 0
    ensures MemoryExtraction in r <==> count % MEMORY_EXTRACTION_INTERVAL == 0
    ensures SuggestionCheck in r <==> count % SUGGESTION_CHECK_INTERVAL == 0
  {
    (if count % EMOTION_ANALYSIS_INTERVAL == 0 then [EmotionAnalysis] else [])
    + (if count % MEMORY_EXTRACTION_INTERVAL == 0 then [MemoryExtraction] else [])
    + (if count % SUGGESTION_CHECK_INTERVAL == 0 then [SuggestionCheck] else [])
  }

  /** `_on_message_received` and `_on_message_sent` alike: on the host with an AI service the
      counter goes up by one and the schedule runs; elsewhere nothing happens. */
  function OnMessage(app: App): (r: (App, seq<Analysis>))
    ensures r.0.isHost == app.isHost && r.0.hasAi == app.hasAi
    ensures r.0.messageCount == if app.isHost && app.hasAi then app.messageCount + 1 else app.messageCount
    ensures !(app.isHost && app.hasAi) ==> r.1 == []
    ensures app.isHost && app.hasAi ==> (EmotionAnalysis in r.1 <==> (app.messageCount + 1) % 5 == 0)
  {
    if app.isHost && app.hasAi then
      var app' := app.(messageCount := app.messageCount + 1);
      (app', Triggered(app'.messageCount))
    else (app, [])
  }

  /** `n` messages in a row: the final state and every analysis started, in order. */
  function OnMessages(app: App, n: nat): (App, seq<Analysis>)
    decreases n
  {
    if n == 0 then (app, [])
    else
      var prev := OnMessages(app, n - 1);
      var step := OnMessage(prev.0);
      (step.0, prev.1 + step.1)
  }

  /** How many times `a` occurs in `xs`. */
  function Count(xs: seq<Analysis>, a: Analysis): nat {
    if xs == [] then 0 else (if xs[0] == a then 1 else 0) + Count(xs[1..], a)
  }

  lemma {:induction false} CountAppend(xs: seq<Analysis>, ys: seq<Analysis>, a: Analysis)
    ensures Count(xs + ys, a) == Count(xs, a) + Count(ys, a)
    decreases |xs|
  {
    if xs == [] {
      assert xs + ys == ys;
    } else {
      assert (xs + ys)[1..] == xs[1..] + ys;
      CountAppend(xs[1..], ys, a);
    }
  }

  /** The interval of each analysis. */
  function Interval(a: Analysis): int {
    match a
    case EmotionAnalysis => EMOTION_ANALYSIS_INTERVAL
    case MemoryExtraction => MEMORY_EXTRACTION_INTERVAL
    case SuggestionCheck => SUGGESTION_CHECK_INTERVAL
  }

  lemma OnceInTriggered(count: int, a: Analysis)
    ensures Count(Triggered(count), a) == if count % Interval(a) == 0 then 1 else 0
  {
    var e: seq<Analysis> := if count % EMOTION_ANALYSIS_INTERVAL == 0 then [EmotionAnalysis] else [];
    var m: seq<Analysis> := if count % MEMORY_EXTRACTION_INTERVAL == 0 then [MemoryExtraction] else [];
    var s: seq<Analysis> := if count % SUGGESTION_CHECK_INTERVAL == 0 then [SuggestionCheck] else [];
    CountAppend(e + m, s, a);
    CountAppend(e, m, a);
    assert Triggered(count) == e + m + s;
    assert Count(e, a) == if a == EmotionAnalysis && count % EMOTION_ANALYSIS_INTERVAL == 0 then 1 else 0;
    assert Count(m, a) == if a == MemoryExtraction && count % MEMORY_EXTRACTION_INTERVAL == 0 then 1 else 0;
    assert Count(s, a) == if a == SuggestionCheck && count % SUGGESTION_CHECK_INTERVAL == 0 then 1 else 0;
  }

  /** How many of the counts `m + 1` to `m + n` are multiples of `k`. */
  function Multiples(m: int, n: nat, k: int): nat
    requires k > 0
    decreases n
  {
    if n == 0 then 0 else Multiples(m, n - 1, k) + if (m + n) % k == 0 then 1 else 0
  }

  /** There are `(m + n) / k - m / k` of them. */
  lemma {:induction false} MultiplesQuotient(m: int, n: nat, k: int)
    requires k > 0
    ensures Multiples(m, n, k) == (m + n) / k - m / k
    decreases n
  {
    if n > 0 {
      var c := m + n - 1;
      assert Multiples(m, n - 1, k) == c / k - m / k by {
        MultiplesQuotient(m, n - 1, k);
      }
      DivStep(c, k);
    }
  }

  /** `(c + 1) / k` steps up by one exactly when `c + 1` is a multiple of `k`. */
  lemma DivStep(c: int, k: int)
    requires k > 0
    ensures (c + 1) / k == c / k + if (c + 1) % k == 0 then 1 else 0
  {
    var q := c / k;
    var r := c % k;
    if r + 1 < k {
      DivUnique(c + 1, k, q, r + 1);
    } else {
      assert c + 1 == (q + 1) * k;
      DivUnique(c + 1, k, q + 1, 0);
    }
  }

  /** The quotient and remainder of a division by a positive `k` are the only ones possible. */
  lemma DivUnique(x: int, k: int, q: int, r: int)
    requires k > 0 && 0 <= r < k && x == q * k + r
    ensures x / k == q && x % k == r
  {
    var d := x / k - q;
    assert k * d == r - x % k;
    MulMagnitude(k, d);
  }

  lemma MulMagnitude(k: int, d: int)
    requires k > 0
    ensures d == 0 || k * d >= k || k * d <= -k
  {
    if d > 0 {
      assert k * d == k * (d - 1) + k;
      MulNonNegative(k, d - 1);
    } else if d < 0 {
      assert k * d == -(k * (-d - 1)) - k;
      MulNonNegative(k, -d - 1);
    }
  }

  lemma MulNonNegative(a: int, b: int)
    requires a >= 0 && b >= 0
    ensures a * b >= 0
  {
  }

  /** On the host with an AI service every message moves the counter by one. */
  lemma {:induction false} CounterAdvances(app: App, n: nat)
    requires app.isHost && app.hasAi
    ensures OnMessages(app, n).0 == app.(messageCount := app.messageCount + n)
    decreases n
  {
    if n > 0 {
      CounterAdvances(app, n - 1);
    }
  }

  /** Each analysis is started once for every count reached that is a multiple of its interval. */
  lemma {:induction false} StartedAtMultiples(app: App, n: nat, a: Analysis)
    requires app.isHost && app.hasAi
    ensures Count(OnMessages(app, n).1, a) == Multiples(app.messageCount, n, Interval(a))
    decreases n
  {
    if n > 0 {
      var c := app.messageCount + n - 1;
      var prev := OnMessages(app, n - 1);
      var started := Triggered(c + 1);
      StartedAtMultiples(app, n - 1, a);
      OnceInTriggered(c + 1, a);
      CounterAdvances(app, n - 1);
      assert OnMessage(prev.0) == (app.(messageCount := c + 1), started);
      assert OnMessages(app, n).1 == prev.1 + started;
      CountAppend(prev.1, started, a);
    }
  }

  /** On the host with an AI service, starting from a count `c`, the next `n` messages start each
      analysis once per multiple of its interval reached: every 5th message the emotion analysis,
      every 10th the memory extraction, every 3rd the suggestion check. */
  lemma EveryNth(app: App, n: nat, a: Analysis)
    requires app.isHost && app.hasAi
    ensures Count(OnMessages(app, n).1, a)
      == (app.messageCount + n) / Interval(a) - app.messageCount / Interval(a)
  {
    StartedAtMultiples(app, n, a);
    MultiplesQuotient(app.messageCount, n, Interval(a));
  }

  /** Without both a host role and an AI service the counter never moves and nothing is started. */
  lemma {:induction false} GuestNeverAnalyses(app: App, n: nat)
    requires !(app.isHost && app.hasAi)
    ensures OnMessages(app, n) == (app, [])
    decreases n
  {
    if n > 0 {
      GuestNeverAnalyses(app, n - 1);
      var prev := OnMessages(app, n - 1);
      assert prev == (app, []);
      assert OnMessage(app) == (app, []);
      assert OnMessages(app, n) == (app, prev.1 + []);
      assert prev.1 + [] == [];
    }
  }

  /** `db.get_recent_messages(n)`: the last `n` messages, oldest first. */
  function Recent(history: seq<AiService.ChatLine>, n: nat): (r: seq<AiService.ChatLine>)
    ensures |r| == if |history| < n then |history| else n
    ensures r == history[|history| - |r|..]
  {
    if |history| <= n then history else history[|history| - n..]
  }

  /** `_analyze_emotion`: skipped (None) with fewer than two recent messages; otherwise the scores
      and the emotion recorded with them. */
  function EmotionStep(history: seq<AiService.ChatLine>, reply: Option<string>, parse: TextParser,
                       parseFloat: string -> Option<real>): (r: Option<(AiService.Scores, string)>)
    ensures r.None? <==> |history| < 2
    ensures r.Some? ==> r.value.1 in r.value.0 && forall k :: k in r.value.0 ==> r.value.0[k] <= r.value.0[r.value.1]
  {
    var recent := Recent(history, RECENT_MESSAGES_FOR_EMOTION);
    if |recent| < 2 then None
    else
      var scores := AiService.AnalyzeEmotion(recent, reply, parse, parseFloat).0;
      Some((scores, Dominant(scores)))
  }

  /** An emotion's position in the output order. */
  function Rank(e: string): int {
    if e == "neutral" then 0 else if e == "happy" then 1 else if e == "tense" then 2 else 3
  }

  /** `max(scores.items(), key=...)[0]`: the first emotion, in output order, with the highest score. */
  function Dominant(s: AiService.Scores): (e: string)
    requires s == AiService.NEUTRAL || s.Keys == {"neutral", "happy", "tense", "negative"}
    ensures e in s && forall k :: k in s ==> s[k] <= s[e]
    ensures forall k :: k in s && Rank(k) < Rank(e) ==> s[k] < s[e]
  {
    if s == AiService.NEUTRAL then "neutral"
    else
      var n := s["neutral"];
      var h := s["happy"];
      var t := s["tense"];
      var g := s["negative"];
      if n >= h && n >= t && n >= g then "neutral"
      else if h >= t && h >= g then "happy"
      else if t >= g then "tense"
      else "negative"
  }

  /** One row of the memories table as `get_memories` reads it back. Both columns are TEXT, so
      both come back as strings; the category may be NULL (None). */
  datatype Memory = Memory(content: string, category: Option<string>)

  const INT64_MIN: int := -0x8000_0000_0000_0000
  const INT64_MAX: int := 0x7FFF_FFFF_FFFF_FFFF

  /** What a TEXT column keeps for a value sqlite3 binds to it. A string is kept as it is. An
      integer, or a boolean (bound as 1 or 0), becomes its decimal text. A float becomes SQLite's
      text rendering of the REAL, given by `renderReal`. None is NULL. A list, a dict, or an
      integer outside 64 bits cannot be bound, and the insert raises. */
  datatype Cell = Text(s: string) | Null | Unbindable

  function DigitChar(d: nat): char
    requires d < 10
  {
    "0123456789"[d]
  }

  function Digits(n: nat): string
    decreases n
  {
    if n < 10 then [DigitChar(n)] else Digits(n / 10) + [DigitChar(n % 10)]
  }

  /** The decimal text of an integer. */
  function IntText(i: int): string {
    if i < 0 then "-" + Digits(-i) else Digits(i)
  }

  function Bind(v: Json, renderReal: real -> string): (c: Cell)
    ensures c.Unbindable? <==> v.JArr? || v.JObj? || (v.JInt? && !(INT64_MIN <= v.i <= INT64_MAX))
    ensures c.Null? <==> v.JNull?
    ensures v.JStr? ==> c == Text(v.s)
  {
    match v
    case JNull => Null
    case JBool(b) => Text(if b then "1" else "0")
    case JInt(i) => if INT64_MIN <= i <= INT64_MAX then Text(IntText(i)) else Unbindable
    case JFloat(r) => Text(renderReal(r))
    case JStr(s) => Text(s)
    case JArr(_) => Unbindable
    case JObj(_) => Unbindable
  }

  function Contents(stored: seq<Memory>): (r: seq<string>)
    ensures |r| == |stored| && forall i :: 0 <= i < |stored| ==> r[i] == stored[i].content
  {
    seq(|stored|, i requires 0 <= i < |stored| => stored[i].content)
  }

  ghost predicate UniqueContents(stored: seq<Memory>) {
    forall i, j :: 0 <= i < j < |stored| ==> stored[i].content != stored[j].content
  }

  /** What is stored at the front of a store is still stored once the store has grown. */
  lemma ContentsExtend(a: seq<Memory>, b: seq<Memory>)
    requires |a| <= |b| && b[..|a|] == a
    ensures forall x :: x in Contents(a) ==> x in Contents(b)
  {
    forall x | x in Contents(a)
      ensures x in Contents(b)
    {
      var j :| 0 <= j < |a| && Contents(a)[j] == x;
      assert Contents(b)[j] == b[j].content == a[j].content;
    }
  }

  /** Whether `memory['content']` can be read: a dict holding the key. */
  predicate Readable(memory: Json) {
    memory.JObj? && "content" in memory.fields
  }

  /** Whether `add_memory` can insert a readable memory. The content must be a string, a number or
      a boolean: NOT NULL rejects None, and a list or a dict cannot be bound. The category must be
      absent, None, or a value of the same kinds. */
  predicate Storable(m: Json)
    requires Readable(m)
  {
    var c := m.fields["content"];
    var g := Get(m.fields, "category");
    && (c.JStr? || c.JBool? || c.JFloat? || (c.JInt? && INT64_MIN <= c.i <= INT64_MAX))
    && !(g.JArr? || g.JObj? || (g.JInt? && !(INT64_MIN <= g.i <= INT64_MAX)))
  }

  /** The row `add_memory(memory['content'], memory.get('category'))` inserts, or None when the
      insert raises (IntegrityError, or an error binding a parameter). */
  function Insert(m: Json, renderReal: real -> string): (r: Option<Memory>)
    requires Readable(m)
    ensures r.Some? <==> Storable(m)
    ensures r.Some? ==> Bind(m.fields["content"], renderReal) == Text(r.value.content)
    ensures r.Some? && Get(m.fields, "category").JNull? ==> r.value.category == None
    ensures r.Some? && Get(m.fields, "category").JStr? ==> r.value.category == Some(Get(m.fields, "category").s)
  {
    match (Bind(m.fields["content"], renderReal), Bind(Get(m.fields, "category"), renderReal))
    case (Text(c), Text(g)) => Some(Memory(c, Some(g)))
    case (Text(c), Null) => Some(Memory(c, None))
    case _ => None
  }

  /** The loop's `in` test. Every stored content is a string, and a value equals a string only when
      it is that same string, so a number or a boolean is never found. */
  predicate Known(stored: seq<Memory>, c: Json) {
    c.JStr? && c.s in Contents(stored)
  }

  /** One step of the loop on a readable memory: a known content leaves the store as it is, a new
      one is inserted, and None is the exception the insert raises. */
  function Store(stored: seq<Memory>, m: Json, renderReal: real -> string): (r: Option<seq<Memory>>)
    requires Readable(m)
    ensures r.None? <==> !Known(stored, m.fields["content"]) && !Storable(m)
    ensures r.Some? ==> (r.value == stored <==> Known(stored, m.fields["content"]))
    ensures r.Some? && r.value != stored ==>
      |r.value| == |stored| + 1 && r.value[..|stored|] == stored && r.value[|stored|] == Insert(m, renderReal).value
    ensures r.Some? ==>
      Bind(m.fields["content"], renderReal).Text? && Bind(m.fields["content"], renderReal).s in Contents(r.value)
  {
    var c := m.fields["content"];
    if Known(stored, c) then Some(stored)
    else
      match Insert(m, renderReal)
      case None => None
      case Some(row) =>
        var next := stored + [row];
        assert next[..|stored|] == stored;
        assert Contents(next)[|stored|] == row.content;
        Some(next)
  }

  /** Whether handling `m` raises: its content cannot be read, or it is new and cannot be inserted. */
  predicate Fails(stored: seq<Memory>, m: Json, renderReal: real -> string) {
    !Readable(m) || Store(stored, m, renderReal).None?
  }

  /** The loop in `_extract_memories`. The store is re-read for every item, and an item is inserted
      unless its content is already stored. An item that raises (KeyError or TypeError on reading
      the content, or an error from the insert) ends the loop, and what was stored before stays.
      Returns the store and whether the loop was cut short. */
  function Deduplicate(stored: seq<Memory>, memories: seq<Json>, renderReal: real -> string): (r: (seq<Memory>, bool))
    ensures |stored| <= |r.0| && r.0[..|stored|] == stored
    decreases |memories|
  {
    if memories == [] then (stored, false)
    else if !Readable(memories[0]) then (stored, true)
    else
      match Store(stored, memories[0], renderReal)
      case None => (stored, true)
      case Some(next) =>
        var rest := Deduplicate(next, memories[1..], renderReal);
        assert rest.0[..|stored|] == rest.0[..|next|][..|stored|];
        rest
  }

  lemma DeduplicateStep(stored: seq<Memory>, memories: seq<Json>, renderReal: real -> string)
    requires memories != []
    ensures Fails(stored, memories[0], renderReal) ==> Deduplicate(stored, memories, renderReal) == (stored, true)
    ensures !Fails(stored, memories[0], renderReal) ==>
      Deduplicate(stored, memories, renderReal)
        == Deduplicate(Store(stored, memories[0], renderReal).value, memories[1..], renderReal)
  {
  }

  /** The loop over `a + b` is the loop over `a` followed, unless that was cut short, by the loop
      over `b` from the store `a` left. */
  lemma {:induction false} DeduplicateAppend(stored: seq<Memory>, a: seq<Json>, b: seq<Json>, renderReal: real -> string)
    ensures var ra := Deduplicate(stored, a, renderReal);
      Deduplicate(stored, a + b, renderReal) == if ra.1 then ra else Deduplicate(ra.0, b, renderReal)
    decreases |a|
  {
    if a == [] {
      assert a + b == b;
    } else {
      assert (a + b)[0] == a[0];
      assert (a + b)[1..] == a[1..] + b;
      DeduplicateStep(stored, a, renderReal);
      DeduplicateStep(stored, a + b, renderReal);
      if !Fails(stored, a[0], renderReal) {
        DeduplicateAppend(Store(stored, a[0], renderReal).value, a[1..], b, renderReal);
      }
    }
  }

  /** Every readable memory of the batch has a string content. */
  predicate StringContents(memories: seq<Json>) {
    forall k :: 0 <= k < |memories| && Readable(memories[k]) ==> memories[k].fields["content"].JStr?
  }

  /** With string contents, the loop never stores a content twice, and everything it adds was not
      stored before. NumberInBatchStoredTwice shows why the condition is needed. */
  lemma {:induction false} DeduplicateUnique(stored: seq<Memory>, memories: seq<Json>, renderReal: real -> string)
    ensures StringContents(memories) ==>
      var r := Deduplicate(stored, memories, renderReal).0;
      && (UniqueContents(stored) ==> UniqueContents(r))
      && forall i :: |stored| <= i < |r| ==> r[i].content !in Contents(stored)
    decreases |memories|
  {
    if StringContents(memories) && memories != [] && !Fails(stored, memories[0], renderReal) {
      var next := Store(stored, memories[0], renderReal).value;
      var rest := memories[1..];
      assert StringContents(rest) by {
        forall k | 0 <= k < |rest| && Readable(rest[k])
          ensures rest[k].fields["content"].JStr?
        {
          assert rest[k] == memories[k + 1];
        }
      }
      DeduplicateStep(stored, memories, renderReal);
      DeduplicateUnique(next, rest, renderReal);
      var r := Deduplicate(stored, memories, renderReal).0;
      assert Contents(next)[..|stored|] == Contents(stored);
      assert r[..|next|] == next;
      if next != stored {
        var c := memories[0].fields["content"];
        assert next[|stored|].content == c.s && c.s !in Contents(stored);
        assert UniqueContents(stored) ==> UniqueContents(next) by {
          if UniqueContents(stored) {
            forall i, j | 0 <= i < j < |next|
              ensures next[i].content != next[j].content
            {
              if j == |stored| {
                assert Contents(stored)[i] == next[i].content;
              }
            }
          }
        }
      }
      forall i | |stored| <= i < |r|
        ensures r[i].content !in Contents(stored)
      {
        if i >= |next| {
          assert r[i].content !in Contents(next);
        } else {
          assert next != stored && r[i] == next[i];
        }
      }
    }
  }

  /** A content that is not a string is never found among the stored strings, so the loop inserts it
      however often the store already holds its text. */
  lemma NonStringAddedAgain(stored: seq<Memory>, m: Json, renderReal: real -> string)
    requires Readable(m) && Storable(m) && !m.fields["content"].JStr?
    ensures Store(stored, m, renderReal) == Some(stored + [Insert(m, renderReal).value])
  {
  }

  /** The loop is cut short exactly when some memory, handled against the store the earlier ones
      left, raises. */
  lemma {:induction false} DeduplicateAbortsIff(stored: seq<Memory>, memories: seq<Json>, renderReal: real -> string)
    ensures Deduplicate(stored, memories, renderReal).1 <==>
      exists i :: 0 <= i < |memories| && Fails(Deduplicate(stored, memories[..i], renderReal).0, memories[i], renderReal)
    decreases |memories|
  {
    if memories != [] {
      DeduplicateStep(stored, memories, renderReal);
      assert memories[..0] == [];
      if !Fails(stored, memories[0], renderReal) {
        var next := Store(stored, memories[0], renderReal).value;
        var rest := memories[1..];
        DeduplicateAbortsIff(next, rest, renderReal);
        forall i | 1 <= i <= |memories|
          ensures Deduplicate(stored, memories[..i], renderReal) == Deduplicate(next, rest[..i - 1], renderReal)
        {
          assert memories[..i][0] == memories[0];
          assert memories[..i][1..] == rest[..i - 1];
          DeduplicateStep(stored, memories[..i], renderReal);
        }
        if exists i :: 0 <= i < |memories| && Fails(Deduplicate(stored, memories[..i], renderReal).0, memories[i], renderReal) {
          var i :| 0 <= i < |memories| && Fails(Deduplicate(stored, memories[..i], renderReal).0, memories[i], renderReal);
          assert i != 0;
          assert rest[i - 1] == memories[i];
        }
        if exists j :: 0 <= j < |rest| && Fails(Deduplicate(next, rest[..j], renderReal).0, rest[j], renderReal) {
          var j :| 0 <= j < |rest| && Fails(Deduplicate(next, rest[..j], renderReal).0, rest[j], renderReal);
          assert memories[j + 1] == rest[j];
          assert Fails(Deduplicate(stored, memories[..j + 1], renderReal).0, memories[j + 1], renderReal);
        }
      }
    }
  }

  /** A batch of readable, insertable memories is never cut short. */
  lemma {:induction false} DeduplicateCompletes(stored: seq<Memory>, memories: seq<Json>, renderReal: real -> string)
    requires forall i :: 0 <= i < |memories| ==> Readable(memories[i]) && Storable(memories[i])
    ensures !Deduplicate(stored, memories, renderReal).1
    decreases |memories|
  {
    if memories != [] {
      DeduplicateStep(stored, memories, renderReal);
      assert forall i :: 0 <= i < |memories[1..]| ==> memories[1..][i] == memories[i + 1];
      DeduplicateCompletes(Store(stored, memories[0], renderReal).value, memories[1..], renderReal);
    }
  }

  /** Every memory the loop gets past has its content stored afterwards: a string as itself, a
      number or a boolean as its column text. */
  lemma DeduplicateStoresAll(stored: seq<Memory>, memories: seq<Json>, renderReal: real -> string)
    ensures forall i :: 0 <= i < |memories| && !Deduplicate(stored, memories[..i + 1], renderReal).1 ==>
      && Readable(memories[i])
      && Bind(memories[i].fields["content"], renderReal).Text?
      && Bind(memories[i].fields["content"], renderReal).s in Contents(Deduplicate(stored, memories, renderReal).0)
  {
    forall i | 0 <= i < |memories| && !Deduplicate(stored, memories[..i + 1], renderReal).1
      ensures && Readable(memories[i])
              && Bind(memories[i].fields["content"], renderReal).Text?
              && Bind(memories[i].fields["content"], renderReal).s in Contents(Deduplicate(stored, memories, renderReal).0)
    {
      var m := memories[i];
      assert memories[..i + 1] == memories[..i] + [m];
      DeduplicateAppend(stored, memories[..i], [m], renderReal);
      var p := Deduplicate(stored, memories[..i], renderReal);
      assert !p.1;
      DeduplicateStep(p.0, [m], renderReal);
      assert !Fails(p.0, m, renderReal);
      var next := Store(p.0, m, renderReal).value;
      assert [m][1..] == [];
      assert Deduplicate(stored, memories[..i + 1], renderReal).0 == next;
      assert memories == memories[..i + 1] + memories[i + 1..];
      DeduplicateAppend(stored, memories[..i + 1], memories[i + 1..], renderReal);
      ContentsExtend(next, Deduplicate(stored, memories, renderReal).0);
    }
  }

  /** `_extract_memories`: skipped (None) with fewer than three of the last twenty messages;
      otherwise the store after the de-duplicating loop over what the backend extracted. */
  function MemoryStep(stored: seq<Memory>, history: seq<AiService.ChatLine>, reply: Option<string>,
                      parse: TextParser, renderReal: real -> string): (r: Option<seq<Memory>>)
    ensures r.None? <==> |history| < 3
    ensures r.Some? ==> |stored| <= |r.value| && r.value[..|stored|] == stored
    ensures var ms := AiService.ExtractMemories(Recent(history, 20), reply, parse).0;
      r.Some? && UniqueContents(stored) && StringContents(ms) ==> UniqueContents(r.value)
  {
    var recent := Recent(history, 20);
    if |recent| < 3 then None
    else
      var memories := AiService.ExtractMemories(recent, reply, parse).0;
      DeduplicateUnique(stored, memories, renderReal);
      Some(Deduplicate(stored, memories, renderReal).0)
  }

  /** `_check_suggestions`: skipped with fewer than two recent messages; a suggestion is shown only
      when it is a non-empty dict. */
  function SuggestionStep(history: seq<AiService.ChatLine>, reply: Option<string>, parse: TextParser): (r: Option<Object>)
    ensures r.Some? ==> |history| >= 2 && r.value != map[]
  {
    var recent := Recent(history, 5);
    if |recent| < 2 then None
    else
      match AiService.GenerateSuggestion(recent, reply, parse).0
      case Some(s) => if s != map[] then Some(s) else None
      case None => None
  }

  /** A batch that repeats a string content stores it once. */
  lemma DuplicateInBatchStoredOnce(s: string, renderReal: real -> string)
    ensures var m := JObj(map["content" := JStr(s)]);
      Deduplicate([], [m, m], renderReal) == ([Memory(s, None)], false)
  {
    var m := JObj(map["content" := JStr(s)]);
    var one := [Memory(s, None)];
    assert Contents(one) == [s];
    assert [m, m][1..] == [m];
    assert [m][1..] == [];
    assert Deduplicate(one, [m], renderReal) == (one, false);
    assert Deduplicate([], [m, m], renderReal) == Deduplicate(one, [m], renderReal);
  }

  /** A batch that repeats a number content stores its text twice: the number is never equal to
      the stored text. */
  lemma NumberInBatchStoredTwice(n: int, renderReal: real -> string)
    requires INT64_MIN <= n <= INT64_MAX
    ensures var m := JObj(map["content" := JInt(n)]);
      var row := Memory(IntText(n), None);
      Deduplicate([], [m, m], renderReal) == ([row, row], false)
  {
    var m := JObj(map["content" := JInt(n)]);
    var row := Memory(IntText(n), None);
    assert [m, m][1..] == [m];
    assert [m][1..] == [];
    assert Store([], m, renderReal) == Some([row]);
    NonStringAddedAgain([row], m, renderReal);
    assert [row] + [row] == [row, row];
    assert Deduplicate([row, row], [], renderReal) == ([row, row], false);
    assert Deduplicate([row], [m], renderReal) == ([row, row], false);
  }

  /** A null content raises on insert and ends the loop before the next memory is read. */
  lemma NullContentEndsLoop(rest: seq<Json>, renderReal: real -> string)
    ensures Deduplicate([], [JObj(map["content" := JNull])] + rest, renderReal) == ([], true)
  {
    var m := JObj(map["content" := JNull]);
    assert ([m] + rest)[0] == m;
    assert Store([], m, renderReal).None?;
  }

  /** `start`: the role, the address and the port chosen in the dialog. */
  datatype Start = Start(isHost: bool, hostIp: string, port: int)

  /** The dialog's fallbacks: the host binds to every interface, a guest with an empty address uses
      the local one, and port text that is not an integer gives the default port. `parseInt` is
      Python's `int` on a string, None for ValueError. */
  function StartFromDialog(role: string, hostIp: string, portText: string, parseInt: string -> Option<int>): (r: Start)
    ensures r.isHost <==> role == "host"
    ensures r.isHost ==> r.hostIp == DEFAULT_HOST_IP
    ensures !r.isHost ==> r.hostIp == if hostIp == "" then DEFAULT_GUEST_IP else hostIp
    ensures parseInt(portText).None? ==> r.port == DEFAULT_PORT
    ensures parseInt(portText).Some? ==> r.port == parseInt(portText).value
  {
    var isHost := role == "host";
    Start(isHost,
          if isHost then DEFAULT_HOST_IP else if hostIp != "" then hostIp else DEFAULT_GUEST_IP,
          parseInt(portText).GetOr(DEFAULT_PORT))
  }
}
