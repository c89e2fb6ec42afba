/** The login and registration screen, `Home` in frontend/src/App.jsx. Its
    React state becomes the fields of `HomeScreen`; each handler becomes a
    method. A request to the face service is split in two: `Start...` runs the
    handler up to its `await` and returns the request it sends, `Complete...`
    runs the rest with the service's outcome as a parameter. What the user
    sees as "capturing" and "reviewing" is `mode` with no image, or with one. */
module Home {
  import opened Wrappers
  import opened Js
  import DataUrl
  import Dashboard

  /** The `mode` state: `'home'`, `'register'` or `'login'`. */
  datatype Mode = HomeMode | RegisterMode | LoginMode

  /** The `error` a failed axios request throws: `error.response?.data?.detail`
      (`Undefined` without a response) and `error.message`. */
  datatype RequestError = RequestError(detail: Value, message: string)

  /** How a `registerFace` call ends: `res.data.message`, or an error. */
  datatype RegisterOutcome = Registered(message: string) | RegisterFailed(error: RequestError)

  /** The fields of `res.data` that `handleLogin` reads. */
  datatype RecognizeData = RecognizeData(matched: Value, name: Value, age: Value, height: Value, weight: Value, id: Value)

  /** How a `recognizeFace` call ends. */
  datatype RecognizeOutcome = Recognized(data: RecognizeData) | RecognizeFailed(error: RequestError)

  /** What `registerFace(name, age, height, weight, file)` is called with. */
  datatype RegisterRequest = RegisterRequest(name: string, age: string, height: string, weight: string, file: DataUrl.File)

  /** Which request, if any, has been sent and not yet answered. */
  datatype Pending = NoRequest | RegisterPending | LoginPending

  /** `error.response?.data?.detail || error.message` */
  function ErrorText(e: RequestError): string {
    if Truthy(e.detail) then ToText(e.detail) else e.message
  }

  /** The status message a handler writes when its request throws. */
  function FailureMessage(text: string): (m: string)
    ensures IsErrorStyled(m)
  {
    ContainsMiddle("", "Error", ": " + text);
    "Error: " + text
  }

  /** The status message of a recognition without a match. */
  const UnknownFace := "Unknown face. Please try again or register."

  /** The test that picks the red styling for the status message (line 236). */
  predicate IsErrorStyled(message: string) {
    Contains(message, "Error") || Contains(message, "Unknown")
  }

  /** Every message a handler writes on a failure is styled as an error. */
  lemma FailuresAreErrorStyled(e: RequestError, c: DataUrl.ConversionError)
    ensures IsErrorStyled(FailureMessage(ErrorText(e)))
    ensures IsErrorStyled(FailureMessage(DataUrl.ErrorMessage(c)))
    ensures IsErrorStyled(UnknownFace)
  {
    ContainsMiddle("", "Unknown", UnknownFace[7..]);
    assert "" + "Unknown" + UnknownFace[7..] == UnknownFace;
  }

  /** The styling is inferred from the text, so a success message can be shown
      as an error: registering the name "Unknown" yields one. */
  lemma SuccessCanLookLikeFailure()
    ensures IsErrorStyled("Face registered for Unknown")
  {
    ContainsMiddle("Face registered for ", "Unknown", "");
    assert "Face registered for " + "Unknown" + "" == "Face registered for Unknown";
  }

  /** Where a recognition with a match navigates: the dashboard, carrying
      exactly the five fields of the response. */
  function MatchLocation(d: RecognizeData): Dashboard.Location {
    Dashboard.Location("/dashboard", Some(Dashboard.NavState(d.name, d.age, d.height, d.weight, d.id)))
  }

  /** A match reaches the dashboard page; the dashboard then shows the session
      exactly when the service returned a truthy name, with the response's
      fields and its `id` as the chat's `faceId`. */
  lemma LoginReachesDashboard(d: RecognizeData)
    ensures Dashboard.PageAt(MatchLocation(d)) == Dashboard.DashboardPage
    ensures Dashboard.ViewOf(MatchLocation(d).state).Show? <==> Truthy(d.name)
    ensures var v := Dashboard.ViewOf(MatchLocation(d).state);
            v.Show? ==> v.identity == Dashboard.NavState(d.name, d.age, d.height, d.weight, d.id) && v.chat.faceId == d.id
  {
  }

  class HomeScreen {
    var mode: Mode
    var name: string
    var age: string
    var height: string
    var weight: string
    var message: string
    var imgSrc: Option<string>
    var isLoading: bool
    /** The request in flight, which the rendered page does not show. */
    ghost var pending: Pending

    /** What every reachable state satisfies: drafts are only filled in while
        registering, there is no image on the home view, and `isLoading` is
        set exactly while a request is in flight. */
    ghost predicate Valid()
      reads this
    {
      && (mode != RegisterMode ==> name == "" && age == "" && height == "" && weight == "")
      && (mode == HomeMode ==> imgSrc.None?)
      && (isLoading <==> pending != NoRequest)
    }

    /** `imgSrc` is truthy: a frame has been captured. */
    predicate HasImage()
      reads this
    {
      imgSrc.Some? && imgSrc.value != ""
    }

    /** Not one of the four draft fields is empty. */
    predicate DraftsFilled()
      reads this
    {
      name != "" && age != "" && height != "" && weight != ""
    }

    /** The Register button is on screen and not disabled (lines 199-202). */
    predicate RegisterEnabled()
      reads this
    {
      mode == RegisterMode && HasImage() && !isLoading && DraftsFilled()
    }

    /** The Login button is on screen and not disabled (lines 207-210). */
    predicate LoginEnabled()
      reads this
    {
      mode == LoginMode && HasImage() && !isLoading
    }

    /** The status message is on screen: line 235 renders it only inside the
        register/login block (lines 127-244), so never on the home view. */
    predicate ShowsMessage()
      reads this
    {
      mode != HomeMode && message != ""
    }

    /** The status message is on screen in red (line 236). */
    predicate ShowsError()
      reads this
    {
      ShowsMessage() && IsErrorStyled(message)
    }

    /** The initial state (lines 8-16). */
    constructor ()
      ensures Valid()
      ensures mode == HomeMode && name == "" && age == "" && height == "" && weight == ""
      ensures message == "" && imgSrc == None && !isLoading && pending == NoRequest
    {
      mode := HomeMode;
      name, age, height, weight := "", "", "", "";
      message := "";
      imgSrc := None;
      isLoading := false;
      pending := NoRequest;
    }

    /** "Login with Face", shown only on the home view (line 106). */
    method ChooseLogin()
      requires Valid() && mode == HomeMode
      modifies this`mode
      ensures Valid() && mode == LoginMode
    {
      mode := LoginMode;
    }

    /** "Register New User", shown only on the home view (line 119). */
    method ChooseRegister()
      requires Valid() && mode == HomeMode
      modifies this`mode
      ensures Valid() && mode == RegisterMode
    {
      mode := RegisterMode;
    }

    /** Typing into the Full Name input, shown only while registering before
        a capture (lines 146, 153). */
    method EditName(v: string)
      requires Valid() && mode == RegisterMode && !HasImage()
      modifies this`name
      ensures Valid() && name == v
    {
      name := v;
    }

    /** Typing into the Age input; its value is a string (line 162). */
    method EditAge(v: string)
      requires Valid() && mode == RegisterMode && !HasImage()
      modifies this`age
      ensures Valid() && age == v
    {
      age := v;
    }

    /** Typing into the Height input (line 169). */
    method EditHeight(v: string)
      requires Valid() && mode == RegisterMode && !HasImage()
      modifies this`height
      ensures Valid() && height == v
    {
      height := v;
    }

    /** Typing into the Weight input (line 176). */
    method EditWeight(v: string)
      requires Valid() && mode == RegisterMode && !HasImage()
      modifies this`weight
      ensures Valid() && weight == v
    {
      weight := v;
    }

    /** `capture` (lines 19-22): stores the webcam's screenshot, which is
        `None` when no frame is available. The webcam, and with it the Capture
        button, is mounted only while registering or logging in without an
        image (lines 134-143, 184). */
    method Capture(screenshot: Option<string>)
      requires Valid() && mode != HomeMode && !HasImage()
      modifies this`imgSrc
      ensures Valid() && imgSrc == screenshot
    {
      imgSrc := screenshot;
    }

    /** `retake` (lines 24-27): drops the image and the message, nothing else. */
    method Retake()
      requires Valid()
      modifies this`imgSrc, this`message
      ensures Valid() && imgSrc == None && message == ""
    {
      imgSrc := None;
      message := "";
    }

    /** Cancel (lines 220-229): back to the home view with the message, the
        image and the four drafts all cleared. A request in flight is not
        cancelled. */
    method Cancel()
      requires Valid()
      modifies this`mode, this`message, this`imgSrc, this`name, this`age, this`height, this`weight
      ensures Valid() && mode == HomeMode && message == "" && imgSrc == None
      ensures name == "" && age == "" && height == "" && weight == ""
    {
      mode := HomeMode;
      message := "";
      imgSrc := None;
      name, age, height, weight := "", "", "", "";
    }

    /** `handleRegister` up to its `await` (lines 38-43, and 51-55 when the
        conversion of the image throws). Unless the four drafts and the image
        are all non-empty it does nothing and sends nothing. The Register
        button, its only caller, is disabled while a request is in flight. */
    method StartRegister(atob: string -> Option<string>) returns (req: Option<RegisterRequest>)
      requires Valid() && !isLoading
      modifies this`isLoading, this`message, this`pending
      ensures Valid()
      ensures !old(DraftsFilled() && HasImage()) ==>
                req.None? && !isLoading && message == old(message) && pending == NoRequest
      ensures old(DraftsFilled() && HasImage()) && DataUrl.ToFile(old(imgSrc).value, atob, "face.jpg").Success? ==>
                && req == Some(RegisterRequest(name, age, height, weight, DataUrl.ToFile(old(imgSrc).value, atob, "face.jpg").value))
                && isLoading && pending == RegisterPending && message == old(message)
      ensures old(DraftsFilled() && HasImage()) && DataUrl.ToFile(old(imgSrc).value, atob, "face.jpg").Failure? ==>
                && req.None? && !isLoading && pending == NoRequest
                && message == FailureMessage(DataUrl.ErrorMessage(DataUrl.ToFile(old(imgSrc).value, atob, "face.jpg").error))
    {
      if !(name != "" && age != "" && height != "" && weight != "" && imgSrc.Some? && imgSrc.value != "") {
        return None;
      }
      isLoading := true;
      var file, _ := DataUrl.DataUrlToFile(imgSrc.value, atob, "face.jpg");
      match file
      case Success(f) =>
        pending := RegisterPending;
        req := Some(RegisterRequest(name, age, height, weight, f));
      case Failure(e) =>
        message := FailureMessage(DataUrl.ErrorMessage(e));
        isLoading := false;
        req := None;
    }

    /** The rest of `handleRegister` (lines 44-55). On success the server's
        message is set (it stays hidden on the home view) and the image, the drafts and the mode are reset; on
        failure only the message changes. Either way `isLoading` ends false.
        The setters take effect whatever the user did meanwhile. */
    method CompleteRegister(outcome: RegisterOutcome)
      requires Valid() && pending == RegisterPending
      modifies this`isLoading, this`message, this`pending, this`imgSrc, this`mode
      modifies this`name, this`age, this`height, this`weight
      ensures Valid() && !isLoading && pending == NoRequest
      ensures outcome.Registered? ==>
                && message == outcome.message && imgSrc == None && mode == HomeMode
                && name == "" && age == "" && height == "" && weight == ""
      ensures outcome.RegisterFailed? ==>
                && message == FailureMessage(ErrorText(outcome.error))
                && imgSrc == old(imgSrc) && mode == old(mode)
                && name == old(name) && age == old(age) && height == old(height) && weight == old(weight)
    {
      match outcome {
        case Registered(m) =>
          message := m;
          imgSrc := None;
          name, age, height, weight := "", "", "", "";
          mode := HomeMode;
        case RegisterFailed(e) =>
          message := FailureMessage(ErrorText(e));
      }
      isLoading := false;
      pending := NoRequest;
    }

    /** `handleLogin` up to its `await` (lines 58-63, and 77-81 when the
        conversion of the image throws). Without an image it does nothing.
        The Login button, its only caller, is disabled while a request is in
        flight. */
    method StartLogin(atob: string -> Option<string>) returns (req: Option<DataUrl.File>)
      requires Valid() && !isLoading
      modifies this`isLoading, this`message, this`pending
      ensures Valid()
      ensures !old(HasImage()) ==> req.None? && !isLoading && message == old(message) && pending == NoRequest
      ensures old(HasImage()) && DataUrl.ToFile(old(imgSrc).value, atob, "query.jpg").Success? ==>
                req == Some(DataUrl.ToFile(old(imgSrc).value, atob, "query.jpg").value)
                && isLoading && pending == LoginPending && message == old(message)
      ensures old(HasImage()) && DataUrl.ToFile(old(imgSrc).value, atob, "query.jpg").Failure? ==>
                && req.None? && !isLoading && pending == NoRequest
                && message == FailureMessage(DataUrl.ErrorMessage(DataUrl.ToFile(old(imgSrc).value, atob, "query.jpg").error))
    {
      if !(imgSrc.Some? && imgSrc.value != "") {
        return None;
      }
      isLoading := true;
      var file, _ := DataUrl.DataUrlToFile(imgSrc.value, atob, "query.jpg");
      match file
      case Success(f) =>
        pending := LoginPending;
        req := Some(f);
      case Failure(e) =>
        message := FailureMessage(DataUrl.ErrorMessage(e));
        isLoading := false;
        req := None;
    }

    /** The rest of `handleLogin` (lines 64-81). A truthy `match` navigates to
        the dashboard with the response's five fields, which unmounts this
        screen (a later visit to `/` builds a fresh one); no match shows the
        unknown-face message; a failure shows the error. The mode, the image
        and the drafts never change here, and `isLoading` ends false. */
    method CompleteLogin(outcome: RecognizeOutcome) returns (nav: Option<Dashboard.Location>)
      requires Valid() && pending == LoginPending
      modifies this`isLoading, this`message, this`pending
      ensures Valid() && !isLoading && pending == NoRequest
      ensures outcome.Recognized? && Truthy(outcome.data.matched) ==>
                nav == Some(MatchLocation(outcome.data)) && message == old(message)
      ensures outcome.Recognized? && !Truthy(outcome.data.matched) ==>
                nav.None? && message == UnknownFace
      ensures outcome.RecognizeFailed? ==>
                nav.None? && message == FailureMessage(ErrorText(outcome.error))
    {
      nav := None;
      match outcome {
        case Recognized(d) =>
          if Truthy(d.matched) {
            nav := Some(MatchLocation(d));
          } else {
            message := UnknownFace;
          }
        case RecognizeFailed(e) =>
          message := FailureMessage(ErrorText(e));
      }
      isLoading := false;
      pending := NoRequest;
    }
  }
}
