/** The chat panel, `ChatComponent` in frontend/src/ChatComponent.jsx. Its
    props are fixed for the life of the component; `messages`, `input` and
    `isLoading` are the fields of `ChatView`. Loading the history is one
    atomic event. A send is split in two: `StartSend` runs `handleSend` up to
    its `await` and returns the request, `CompleteSend` appends the reply. */
module Chat {
  import opened Wrappers
  import opened Js
  import Dashboard

  /** One entry of `messages`: `{ sender, text }`. */
  datatype ChatMessage = ChatMessage(sender: string, text: string)

  /** One entry of the history response: `{ role, content }`. */
  datatype HistoryEntry = HistoryEntry(role: string, content: string)

  /** How `getChatHistory(faceId)` ends: the list `res.data`, or a throw. */
  datatype HistoryOutcome = Fetched(entries: seq<HistoryEntry>) | FetchFailed

  /** How `chatWithAI(...)` ends: `res.data.response`, or a throw. */
  datatype ChatOutcome = Replied(response: string) | ChatFailed

  /** What `chatWithAI(userMsg, name, age, height, weight, faceId)` sends. */
  datatype ChatRequest = ChatRequest(message: string, name: Value, age: Value, height: Value, weight: Value, faceId: Value)

  /** The AI message appended when the chat request throws. */
  const Fallback := "Sorry, I had trouble thinking about that."

  const GreetingMiddle := "! I'm your personal AI diet coach. I see you're "
  const GreetingEnd := " years old. How can I help you today?"

  /** The text of the greeting (line 7), with `name` and `age` interpolated. */
  function Greeting(name: Value, age: Value): string {
    "Hi " + ToText(name) + GreetingMiddle + ToText(age) + GreetingEnd
  }

  /** The greeting mentions the user's name and age. */
  lemma GreetingMentionsUser(name: Value, age: Value)
    ensures Contains(Greeting(name, age), ToText(name))
    ensures Contains(Greeting(name, age), ToText(age))
  {
    var g := Greeting(name, age);
    ContainsMiddle("Hi ", ToText(name), GreetingMiddle + ToText(age) + GreetingEnd);
    assert g == "Hi " + ToText(name) + (GreetingMiddle + ToText(age) + GreetingEnd);
    ContainsMiddle("Hi " + ToText(name) + GreetingMiddle, ToText(age), GreetingEnd);
  }

  /** The initial `messages` (lines 6-8): the greeting alone, from the AI. */
  function InitialMessages(p: Dashboard.ChatProps): (r: seq<ChatMessage>)
    ensures |r| == 1 && r[0].sender == "ai"
    ensures Contains(r[0].text, ToText(p.name)) && Contains(r[0].text, ToText(p.age))
  {
    GreetingMentionsUser(p.name, p.age);
    [ChatMessage("ai", Greeting(p.name, p.age))]
  }

  /** `res.data.map(msg => ({ sender: msg.role, text: msg.content }))`:
      one message per entry, in the same order, copied verbatim. */
  function HistoryMessages(entries: seq<HistoryEntry>): (r: seq<ChatMessage>)
    ensures |r| == |entries|
    ensures forall i :: 0 <= i < |entries| ==> r[i].sender == entries[i].role && r[i].text == entries[i].content
    decreases |entries|
  {
    if entries == [] then []
    else [ChatMessage(entries[0].role, entries[0].content)] + HistoryMessages(entries[1..])
  }

  /** `loadHistory` asks the service only when `faceId` is truthy (line 23). */
  predicate FetchesHistory(p: Dashboard.ChatProps) {
    Truthy(p.faceId)
  }

  /** The text of the AI message appended for a chat outcome (lines 57, 59). */
  function ReplyText(outcome: ChatOutcome): string {
    match outcome
    case Replied(response) => response
    case ChatFailed => Fallback
  }

  /** `.replace(/\n/g, '<br/>')` */
  function BreakLines(s: string): (r: string)
    ensures '\n' !in r
    decreases |s|
  {
    if s == [] then [] else (if s[0] == '\n' then "<br/>" else [s[0]]) + BreakLines(s[1..])
  }

  /** `**` starts at index `k` of `t`. */
  predicate StarsAt(t: string, k: int) {
    0 <= k && k + 2 <= |t| && t[k] == '*' && t[k + 1] == '*'
  }

  /** Where the lazy `(.*?)\*\*` that begins at the start of `t` ends: the
      first `**` of `t`, unless a line terminator comes before it. */
  function LazyToStars(t: string): (r: Option<nat>)
    ensures r.Some? ==> StarsAt(t, r.value)
    ensures r.Some? ==> forall k :: 0 <= k < r.value ==> !StarsAt(t, k) && !IsLineTerminator(t[k])
    decreases |t|
  {
    if |t| < 2 then None
    else if StarsAt(t, 0) then Some(0)
    else if IsLineTerminator(t[0]) then None
    else match LazyToStars(t[1..])
      case None => None
      case Some(j) =>
        assert forall k :: 1 <= k <= j ==> (StarsAt(t, k) <==> StarsAt(t[1..], k - 1));
        Some(j + 1)
  }

  /** The global replacement of the lazy pattern `**(.*?)**` by
      `<strong>$1</strong>`: scanning from the
      left, each `**` that has a closing `**` on the same line wraps the text
      between them in `<strong>`; the scan resumes after the closing `**`. */
  function Emphasize(s: string): string
    decreases |s|
  {
    if s == [] then []
    else if StarsAt(s, 0) then
      match LazyToStars(s[2..])
      case Some(j) => "<strong>" + s[2..2 + j] + "</strong>" + Emphasize(s[2 + j + 2..])
      case None => [s[0]] + Emphasize(s[1..])
    else [s[0]] + Emphasize(s[1..])
  }

  /** The HTML a message is rendered with (line 91). */
  function ToHtml(text: string): string {
    Emphasize(BreakLines(text))
  }

  /** Turning line breaks into `<br/>` works piece by piece. */
  lemma {:induction false} BreakLinesAppend(a: string, b: string)
    ensures BreakLines(a + b) == BreakLines(a) + BreakLines(b)
    decreases |a|
  {
    if a != [] {
      var head := if a[0] == '\n' then "<br/>" else [a[0]];
      assert (a + b)[0] == a[0] && (a + b)[1..] == a[1..] + b;
      assert BreakLines(a + b) == head + BreakLines(a[1..] + b);
      BreakLinesAppend(a[1..], b);
      assert BreakLines(a) == head + BreakLines(a[1..]);
    } else {
      assert a + b == b;
    }
  }

  /** Text without a newline keeps its characters. */
  lemma {:induction false} BreakLinesPlain(s: string)
    requires '\n' !in s
    ensures BreakLines(s) == s
    decreases |s|
  {
    if s != [] {
      assert s == [s[0]] + s[1..];
      BreakLinesPlain(s[1..]);
    }
  }

  /** Text without a `*` is not emphasised. */
  lemma {:induction false} EmphasizePlain(s: string)
    requires '*' !in s
    ensures Emphasize(s) == s
    decreases |s|
  {
    if s != [] {
      assert s == [s[0]] + s[1..];
      EmphasizePlain(s[1..]);
    }
  }

  /** Emphasis adds no newline. */
  lemma {:induction false} EmphasizeKeepsNoNewline(s: string)
    requires '\n' !in s
    ensures '\n' !in Emphasize(s)
    decreases |s|
  {
    if s != [] {
      if StarsAt(s, 0) && LazyToStars(s[2..]).Some? {
        var j := LazyToStars(s[2..]).value;
        assert forall c :: c in s[2..2 + j] ==> c in s;
        assert forall c :: c in s[2 + j + 2..] ==> c in s;
        EmphasizeKeepsNoNewline(s[2 + j + 2..]);
      } else {
        assert forall c :: c in s[1..] ==> c in s;
        EmphasizeKeepsNoNewline(s[1..]);
      }
    }
  }

  /** A rendered message holds no newline: every one became `<br/>`. */
  lemma RenderedHasNoNewline(text: string)
    ensures '\n' !in ToHtml(text)
  {
    EmphasizeKeepsNoNewline(BreakLines(text));
  }

  /** A text with neither `*` nor newline is rendered as it is. */
  lemma RenderedPlain(text: string)
    requires '*' !in text && '\n' !in text
    ensures ToHtml(text) == text
  {
    BreakLinesPlain(text);
    EmphasizePlain(text);
  }

  /** The lazy match ends at the first `**` when no line terminator comes
      before it. */
  lemma {:induction false} StarsFirst(t: string, j: nat)
    requires StarsAt(t, j)
    requires forall k :: 0 <= k < j ==> !StarsAt(t, k) && !IsLineTerminator(t[k])
    ensures LazyToStars(t) == Some(j)
    decreases j
  {
    if j > 0 {
      assert !StarsAt(t, 0) && !IsLineTerminator(t[0]);
      var u := t[1..];
      assert StarsAt(u, j - 1);
      forall k | 0 <= k < j - 1
        ensures !StarsAt(u, k) && !IsLineTerminator(u[k])
      {
        assert u[k] == t[k + 1] && u[k + 1] == t[k + 2];
        assert !StarsAt(t, k + 1);
      }
      StarsFirst(u, j - 1);
    }
  }

  /** Text without a `*` in front of `s` is left as it is. */
  lemma {:induction false} EmphasizeAfterPlain(p: string, s: string)
    requires '*' !in p
    ensures Emphasize(p + s) == p + Emphasize(s)
    decreases |p|
  {
    if p != [] {
      var t := p + s;
      assert t[0] == p[0] && p[0] in p;
      assert !StarsAt(t, 0);
      assert t[1..] == p[1..] + s;
      assert Emphasize(t) == [p[0]] + Emphasize(p[1..] + s);
      assert '*' !in p[1..] by {
        assert forall c :: c in p[1..] ==> c in p;
      }
      EmphasizeAfterPlain(p[1..], s);
      assert p == [p[0]] + p[1..];
    } else {
      assert p + s == s;
    }
  }

  /** A `**x**` pair, for an `x` with no `*` and no line terminator, becomes
      `<strong>x</strong>` and the scan goes on after it. */
  lemma EmphasizePair(x: string, q: string)
    requires '*' !in x && forall k :: 0 <= k < |x| ==> !IsLineTerminator(x[k])
    ensures Emphasize("**" + x + "**" + q) == "<strong>" + x + "</strong>" + Emphasize(q)
  {
    var s := "**" + x + "**" + q;
    var t := s[2..];
    assert t == x + "**" + q;
    forall k | 0 <= k < |x|
      ensures !StarsAt(t, k) && !IsLineTerminator(t[k])
    {
      assert t[k] == x[k] && x[k] in x;
    }
    assert t[|x|] == '*' && t[|x| + 1] == '*';
    StarsFirst(t, |x|);
    assert StarsAt(s, 0);
    assert s[2..2 + |x|] == x;
    assert s[2 + |x| + 2..] == q;
  }

  /** `p**x**q` is rendered `p<strong>x</strong>q` when no part holds a `*`
      or a newline and `x` holds no line terminator. */
  lemma RenderedBold(p: string, x: string, q: string)
    requires '*' !in p && '*' !in x && '*' !in q
    requires '\n' !in p && '\n' !in q
    requires forall k :: 0 <= k < |x| ==> !IsLineTerminator(x[k])
    ensures ToHtml(p + "**" + x + "**" + q) == p + "<strong>" + x + "</strong>" + q
  {
    var s := p + "**" + x + "**" + q;
    var rest := "**" + x + "**" + q;
    assert s == p + rest;
    assert '\n' !in x by {
      assert forall k :: 0 <= k < |x| ==> x[k] != '\n';
    }
    assert '\n' !in "**" + x + "**";
    assert '\n' !in s;
    BreakLinesPlain(s);
    EmphasizeAfterPlain(p, rest);
    EmphasizePair(x, q);
    EmphasizePlain(q);
    assert Emphasize(s) == p + ("<strong>" + x + "</strong>" + q);
  }

  /** Two lines are joined by `<br/>` in place of the newline. */
  lemma BreakLinesJoin(a: string, b: string)
    requires '\n' !in a && '\n' !in b
    ensures BreakLines(a + "\n" + b) == a + "<br/>" + b
  {
    var t := "\n" + b;
    assert a + "\n" + b == a + t;
    assert t != [] && t[0] == '\n' && t[1..] == b;
    assert BreakLines(t) == "<br/>" + BreakLines(b);
    BreakLinesAppend(a, t);
    BreakLinesPlain(a);
    BreakLinesPlain(b);
  }

  /** Two lines without `*` are rendered joined by `<br/>`. */
  lemma RenderedLineBreak(a: string, b: string)
    requires '*' !in a && '*' !in b && '\n' !in a && '\n' !in b
    ensures ToHtml(a + "\n" + b) == a + "<br/>" + b
  {
    BreakLinesJoin(a, b);
    var s := a + "<br/>" + b;
    assert '*' !in s by {
      assert forall c :: c in s ==> c in a || c in "<br/>" || c in b;
    }
    EmphasizePlain(s);
  }

  class ChatView {
    const props: Dashboard.ChatProps
    var messages: seq<ChatMessage>
    var input: string
    var isLoading: bool
    /** The sends still waiting for a reply, which the page does not show. */
    ghost var inFlight: nat

    /** The Enter key sends without looking at `isLoading` (line 112), so
        several sends can wait at once and the first reply already clears
        `isLoading`: it implies a send in flight, not the converse. */
    ghost predicate Valid()
      reads this
    {
      isLoading ==> inFlight > 0
    }

    /** The Send button is not disabled (line 118). */
    predicate SendEnabled()
      reads this
    {
      !isLoading
    }

    /** Mounting with the dashboard's props (lines 4-10). */
    constructor (p: Dashboard.ChatProps)
      ensures Valid() && props == p
      ensures messages == InitialMessages(p) && input == "" && !isLoading && inFlight == 0
    {
      props := p;
      messages := InitialMessages(p);
      input := "";
      isLoading := false;
      inFlight := 0;
    }

    /** `loadHistory` (lines 20-45) as one event: a truthy `faceId` and a
        non-empty history replace the whole list with the history; a falsy
        `faceId` (no request at all), an empty history or a failure leave the
        list as it is. */
    method LoadHistory(outcome: HistoryOutcome)
      requires Valid()
      modifies this`messages
      ensures Valid()
      ensures FetchesHistory(props) && outcome.Fetched? && |outcome.entries| > 0 ==>
                messages == HistoryMessages(outcome.entries)
      ensures !(FetchesHistory(props) && outcome.Fetched? && |outcome.entries| > 0) ==>
                messages == old(messages)
    {
      if !Truthy(props.faceId) {
        return;
      }
      match outcome
      case Fetched(entries) =>
        if |entries| > 0 {
          messages := HistoryMessages(entries);
        }
      case FetchFailed =>
    }

    /** Typing into the input (line 111). */
    method EditInput(v: string)
      requires Valid()
      modifies this`input
      ensures Valid() && input == v
    {
      input := v;
    }

    /** `handleSend` up to its `await` (lines 47-56): a blank input (one
        `trim` empties) changes nothing; otherwise the untrimmed input is
        appended as one user message, the input is cleared, `isLoading` is
        set and the request carries the input and the props. */
    method StartSend() returns (req: Option<ChatRequest>)
      requires Valid()
      modifies this`messages, this`input, this`isLoading, this`inFlight
      ensures Valid()
      ensures IsBlank(old(input)) ==>
                && req.None? && messages == old(messages) && input == old(input)
                && isLoading == old(isLoading) && inFlight == old(inFlight)
      ensures !IsBlank(old(input)) ==>
                && messages == old(messages) + [ChatMessage("user", old(input))]
                && input == "" && isLoading && inFlight == old(inFlight) + 1
                && req == Some(ChatRequest(old(input), props.name, props.age, props.height, props.weight, props.faceId))
    {
      TrimEmptyIffBlank(input);
      if Trim(input) == "" {
        return None;
      }
      var userMsg := input;
      messages := messages + [ChatMessage("user", userMsg)];
      input := "";
      isLoading := true;
      inFlight := inFlight + 1;
      req := Some(ChatRequest(userMsg, props.name, props.age, props.height, props.weight, props.faceId));
    }

    /** The rest of `handleSend` (lines 56-62): exactly one AI message is
        appended after whatever the list holds now, the reply's text or the
        fallback, and `isLoading` is cleared. */
    method CompleteSend(outcome: ChatOutcome)
      requires Valid() && inFlight > 0
      modifies this`messages, this`isLoading, this`inFlight
      ensures Valid() && !isLoading && inFlight == old(inFlight) - 1
      ensures messages == old(messages) + [ChatMessage("ai", ReplyText(outcome))]
      // Corollaries of the line above, spelling out what the reply shows.
      ensures outcome.Replied? ==> messages[|messages| - 1].text == outcome.response
      ensures outcome.ChatFailed? ==> messages[|messages| - 1].text == Fallback
    {
      messages := messages + [ChatMessage("ai", ReplyText(outcome))];
      isLoading := false;
      inFlight := inFlight - 1;
    }
  }
}
