/** Client walks through the screens, built only from the contracts of the
    screens' methods: a registration, a login that reaches the chat, an
    unknown face, a failed chat request, two sends in flight through the Enter
    key, and a registration answered after the user cancelled. */
module Scenarios {
  import opened Wrappers
  import opened Js
  import DataUrl
  import Dashboard
  import Home
  import Chat

  /** A frame as `getScreenshot()` returns it for `screenshotFormat="image/jpeg"`
      (frontend/src/App.jsx:140), and a stand-in for `atob`. */
  const Jpeg := "image/jpeg"

  function Shot(payload: string): string {
    "data:" + Jpeg + ";base64," + payload
  }

  function Atob(payload: string): Option<string> {
    Some(payload)
  }

  lemma ShotConverts(payload: string, filename: string)
    requires ',' !in payload
    ensures DataUrl.ToFile(Shot(payload), Atob, filename).Success?
    ensures DataUrl.ToFile(Shot(payload), Atob, filename).value.mimeType == Jpeg
  {
    assert ':' !in Jpeg && ';' !in Jpeg && ',' !in Jpeg;
    assert forall k :: 0 <= k < |Jpeg| ==> !IsLineTerminator(Jpeg[k]);
    assert DataUrl.IsPrintableAscii(Jpeg) && DataUrl.HasNoUpper(Jpeg);
    DataUrl.Base64DataUrl(Jpeg, payload, Atob, filename);
  }

  /** The form filled in and a frame captured: the Register button is
      enabled. */
  method FormFilled(name: string, age: string, height: string, weight: string, shot: string)
      returns (h: Home.HomeScreen)
    requires name != "" && age != "" && height != "" && weight != "" && shot != ""
    ensures fresh(h) && h.Valid() && h.RegisterEnabled() && h.message == ""
    ensures h.name == name && h.age == age && h.height == height && h.weight == weight
    ensures h.imgSrc == Some(shot)
  {
    h := new Home.HomeScreen();
    h.ChooseRegister();
    h.EditName(name);
    h.EditAge(age);
    h.EditHeight(height);
    h.EditWeight(weight);
    h.Capture(Some(shot));
  }

  /** The form filled in, a frame captured and Register pressed: the request
      carries the drafts and the frame's file, and the screen waits for the
      answer. */
  method RegistrationSent(name: string, age: string, height: string, weight: string,
                          shot: string, atob: string -> Option<string>)
      returns (h: Home.HomeScreen, req: Home.RegisterRequest)
    requires name != "" && age != "" && height != "" && weight != ""
    requires DataUrl.ToFile(shot, atob, "face.jpg").Success?
    ensures fresh(h) && h.Valid() && h.mode == Home.RegisterMode
    ensures h.isLoading && h.pending == Home.RegisterPending && h.message == ""
    ensures req == Home.RegisterRequest(name, age, height, weight, DataUrl.ToFile(shot, atob, "face.jpg").value)
  {
    h := FormFilled(name, age, height, weight, shot);
    var sent := h.StartRegister(atob);
    req := sent.value;
  }

  /** Registering Alice, 30, "170cm", "65kg": the service answers
      "registered", and the screen is back on the home view with the message
      set and the drafts cleared. */
  method RegisterAlice(payload: string) returns (mode: Home.Mode, message: string, drafts: seq<string>)
    requires ',' !in payload
    ensures mode == Home.HomeMode && message == "registered"
    ensures drafts == ["", "", "", ""]
  {
    ShotConverts(payload, "face.jpg");
    var h, req := RegistrationSent("Alice", "30", "170cm", "65kg", Shot(payload), Atob);
    h.CompleteRegister(Home.Registered("registered"));
    mode, message := h.mode, h.message;
    drafts := [h.name, h.age, h.height, h.weight];
  }

  /** The server's "registered" is set but not shown on the home view; it
      appears, stale, once the user opens the login view. */
  method StaleRegisteredMessage(payload: string) returns (shownAtHome: bool, shownInLogin: bool, message: string)
    requires ',' !in payload
    ensures !shownAtHome && shownInLogin && message == "registered"
  {
    ShotConverts(payload, "face.jpg");
    var h, req := RegistrationSent("Alice", "30", "170cm", "65kg", Shot(payload), Atob);
    h.CompleteRegister(Home.Registered("registered"));
    shownAtHome := h.ShowsMessage();
    h.ChooseLogin();
    shownInLogin, message := h.ShowsMessage(), h.message;
  }

  /** A frame captured in login mode and sent for recognition. */
  method LoginSent(shot: string, atob: string -> Option<string>) returns (h: Home.HomeScreen)
    requires DataUrl.ToFile(shot, atob, "query.jpg").Success?
    ensures fresh(h) && h.Valid() && h.mode == Home.LoginMode && h.imgSrc == Some(shot)
    ensures h.isLoading && h.pending == Home.LoginPending
  {
    h := new Home.HomeScreen();
    h.ChooseLogin();
    h.Capture(Some(shot));
    var file := h.StartLogin(atob);
  }

  /** Bob's face matches: the dashboard shows his session, the chat starts
      with an empty history for his id, and the list is exactly his greeting. */
  method LoginBob(payload: string) returns (shown: seq<Chat.ChatMessage>)
    requires ',' !in payload
    ensures shown == [Chat.ChatMessage("ai", Chat.Greeting(Str("Bob"), Num(25)))]
  {
    ShotConverts(payload, "query.jpg");
    var h := LoginSent(Shot(payload), Atob);
    var bob := Home.RecognizeData(Bool(true), Str("Bob"), Num(25), Str("180cm"), Str("80kg"), Str("42"));
    var nav := h.CompleteLogin(Home.Recognized(bob));
    assert nav == Some(Home.MatchLocation(bob));
    var view := Dashboard.ViewOf(nav.value.state);
    assert view.chat == Dashboard.ChatProps(Str("Bob"), Num(25), Str("180cm"), Str("80kg"), Str("42"));
    var chat := new Chat.ChatView(view.chat);
    chat.LoadHistory(Chat.Fetched([]));
    shown := chat.messages;
  }

  /** The greeting Bob sees, written out. */
  lemma BobGreeting()
    ensures Chat.Greeting(Str("Bob"), Num(25))
            == "Hi Bob" + Chat.GreetingMiddle + "25" + Chat.GreetingEnd
  {
    assert NatToText(2) == "2";
    assert NatToText(25) == "2" + "5";
    assert ToText(Num(25)) == "25";
    assert ToText(Str("Bob")) == "Bob";
  }

  /** An unknown face: no navigation, still in login mode with the image
      kept, and the message is shown as an error. */
  method UnknownFace(payload: string) returns (mode: Home.Mode, image: Option<string>, red: bool, nav: Option<Dashboard.Location>)
    requires ',' !in payload
    ensures mode == Home.LoginMode && image == Some(Shot(payload)) && red && nav.None?
  {
    ShotConverts(payload, "query.jpg");
    var h := LoginSent(Shot(payload), Atob);
    nav := h.CompleteLogin(Home.Recognized(Home.RecognizeData(Bool(false), Str("Unknown"), Undefined, Undefined, Undefined, Undefined)));
    Home.FailuresAreErrorStyled(Home.RequestError(Undefined, ""), DataUrl.NoMimeType);
    mode, image, red := h.mode, h.imgSrc, h.ShowsError();
  }

  /** A chat request that fails appends the user's message once and then the
      fallback, after the greeting. */
  method SendFails(props: Dashboard.ChatProps) returns (shown: seq<Chat.ChatMessage>)
    ensures shown == Chat.InitialMessages(props)
                     + [Chat.ChatMessage("user", " hi "), Chat.ChatMessage("ai", Chat.Fallback)]
  {
    var chat := new Chat.ChatView(props);
    chat.EditInput(" hi ");
    assert !IsTrimmable('h');
    assert !IsBlank(" hi ") by { assert " hi "[1] == 'h'; }
    var req := chat.StartSend();
    chat.CompleteSend(Chat.ChatFailed);
    shown := chat.messages;
  }

  /** Two messages sent with the Enter key before any reply: the Send button
      is disabled after the first, the Enter key still sends the second, and
      after the first reply `isLoading` is already false while one send still
      waits. */
  method EnterKeyRace(props: Dashboard.ChatProps) returns (buttonEnabled: bool, loading: bool, ghost waiting: nat)
    ensures !buttonEnabled
    ensures !loading && waiting == 1
  {
    var chat := new Chat.ChatView(props);
    assert !IsBlank("a") by { assert "a"[0] == 'a'; }
    chat.EditInput("a");
    var first := chat.StartSend();
    buttonEnabled := chat.SendEnabled();
    chat.EditInput("a");
    var second := chat.StartSend();
    chat.CompleteSend(Chat.Replied("ok"));
    loading, waiting := chat.isLoading, chat.inFlight;
  }

  /** A registration answered after the user cancelled and moved on to the
      login view is still applied: the screen jumps back to the home view. */
  method LateRegistration(payload: string) returns (mode: Home.Mode, message: string)
    requires ',' !in payload
    ensures mode == Home.HomeMode && message == "registered"
  {
    ShotConverts(payload, "face.jpg");
    var h, req := RegistrationSent("Alice", "30", "170cm", "65kg", Shot(payload), Atob);
    h.Cancel();
    h.ChooseLogin();
    assert h.mode == Home.LoginMode;
    h.CompleteRegister(Home.Registered("registered"));
    mode, message := h.mode, h.message;
  }

  /** A registration that fails after Cancel sets its error message on the
      home view, where no status line is rendered: nothing red is shown. */
  method LateFailureHidden(payload: string) returns (mode: Home.Mode, red: bool)
    requires ',' !in payload
    ensures mode == Home.HomeMode && !red
  {
    ShotConverts(payload, "face.jpg");
    var h, req := RegistrationSent("Alice", "30", "170cm", "65kg", Shot(payload), Atob);
    h.Cancel();
    h.CompleteRegister(Home.RegisterFailed(Home.RequestError(Str("boom"), "x")));
    mode, red := h.mode, h.ShowsError();
  }

  /** A message sent before the history arrives is lost: the history load
      replaces the whole list, and the reply is appended after the history. */
  method HistoryOverwritesSend(props: Dashboard.ChatProps, entries: seq<Chat.HistoryEntry>, reply: string)
      returns (shown: seq<Chat.ChatMessage>)
    requires Truthy(props.faceId) && |entries| > 0
    ensures shown == Chat.HistoryMessages(entries) + [Chat.ChatMessage("ai", reply)]
  {
    var chat := new Chat.ChatView(props);
    assert !IsBlank("a") by { assert "a"[0] == 'a'; }
    chat.EditInput("a");
    var req := chat.StartSend();
    chat.LoadHistory(Chat.Fetched(entries));
    chat.CompleteSend(Chat.Replied(reply));
    shown := chat.messages;
  }
}
