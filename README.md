# FitAi client: a Dafny model of its screens

FitAi's browser client lets a person register a face with a name, an age, a
height and a weight. Later they log in by showing the face to the webcam and
then chat with a diet coach. This project models the client's core in
Dafny and proves properties of it:

- `Home` (frontend/src/App.jsx) is the login and registration screen. Its
  React state becomes the fields of the class `Home.HomeScreen`, and each
  handler becomes a method.
- `dataURLtoFile` (App.jsx) turns a webcam frame into the file that is
  uploaded. It is modelled by the function `DataUrl.ToFile` and proved by
  the method `DataUrl.DataUrlToFile`, which keeps the source's loop.
- The route table of `App` and the session guard of `Dashboard`
  (frontend/src/Dashboard.jsx) are pure functions of the router location.
- `ChatComponent` (frontend/src/ChatComponent.jsx) is modelled as the class
  `Chat.ChatView`. It covers the greeting, the history load, sending a
  message, and the HTML each message is rendered with.

Modules:

- `Wrappers` holds `Option` and `Result`.
- `Js` holds the JavaScript values the screens pass around, as `Js.Value`:
  `undefined`, `null`, booleans, numbers and strings. It also holds
  truthiness, `String(v)`, `includes` and `trim`, with the ECMAScript
  white-space set.
- `DataUrl` holds `split(',')`, the lazy regular expression `/:(.*?);/`, the
  Blob type normalisation and `dataURLtoFile`.
- `Dashboard` holds the route table, the guard and Sign Out.
- `Home` and `Chat` hold the two screens.
- `Scenarios` holds walks through the screens, built only from the methods'
  contracts.

Each request to a service is split in two. `Start...` runs the handler up
to its `await` and returns the request it sends. `Complete...` runs the
rest, with the service's outcome as a parameter. So the model allows the
interleavings that the code allows: a cancel while a registration is in
flight, or a second chat message sent with the Enter key before the first
reply.

In five places the code does not do what the screens are evidently meant to
do. The model follows the code each time:

- The dashboard is meant for a recognised face, identified by its face id.
  The guard tests only `state?.name`.
  - A session without `id` (or without age, height or weight) is shown.
  - Its chat then gets an undefined `faceId` and loads no history.
  - See `Dashboard.GuardAdmitsMissingId`.
- A response is meant to matter only to the view that sent the request.
  Responses are not ignored once the user has moved on: a registration
  answered after Cancel still resets the screen to the home view and sets
  its message (`Scenarios.LateRegistration`).
- The status message is meant to report on the action just taken. It is
  rendered only inside the register and login views (App.jsx:127-244), so
  the "registered" message of a successful registration, which lands on the
  home view, is hidden there. Choosing login or register does not clear it,
  so it then appears, stale, in the next view
  (`Scenarios.StaleRegisteredMessage`).
- Only one chat request is meant to be in flight at a time: the Send button
  is disabled while a reply is awaited. The Enter key is not guarded, so
  several sends can be in flight at once, and the first reply already
  clears the loading flag (`Scenarios.EnterKeyRace`).
- The message list is meant to grow only by appending: every send and reply
  adds to the end of it (ChatComponent.jsx:51, 57, 59). The comment at line 35
  weighs prepending the history against replacing the list, and line 36
  replaces it. So a message sent before the history arrives is lost, and its
  reply then follows the history (`Scenarios.HistoryOverwritesSend`).

The history's `role` is copied into `sender` verbatim. The client relies on
the service storing only the roles `user` and `ai`, its own two senders, and
renders any sender other than `user` as the coach's (ChatComponent.jsx:86-87).

Error styling is inferred from the text, as the code does it. So a success
message that contains "Unknown" is styled as an error
(`Home.SuccessCanLookLikeFailure`).

## Model

| member | source | states |
|---|---|---|
| Js.Contains | frontend/src/App.jsx:236 | the definition of `s.includes(t)` by recursion on `s`; stated by the next two rows |
| Js.ContainsIffWindow | frontend/src/App.jsx:236 | `includes` as defined by recursion holds exactly when some slice of the text equals the searched string |
| Js.ContainsMiddle | frontend/src/App.jsx:236 | a text includes every string that occurs in it, whatever surrounds it |
| Js.Truthy | frontend/src/Dashboard.jsx:11 | the definition of JavaScript truthiness of the values modelled, used by the tests `!state?.name` here, `!name`, `!imgSrc` and `res.data.match` (App.jsx:39, 59, 64) and `!faceId` (ChatComponent.jsx:23) |
| Js.ToText | frontend/src/ChatComponent.jsx:7 | the definition of `String(v)` as a template literal inserts it, also used for a truthy `detail` at App.jsx:52; `GreetingMentionsUser` states what it contributes |
| Js.TrimStart | frontend/src/ChatComponent.jsx:48 | the result is a suffix of the input, everything removed is white space, and the result does not start with white space |
| Js.TrimEnd | frontend/src/ChatComponent.jsx:48 | the result is a prefix of the input, everything removed is white space, and the result does not end with white space |
| Js.Trim | frontend/src/ChatComponent.jsx:48 | `input.trim()` is no longer than the input and neither starts nor ends with white space or a line terminator |
| Js.TrimEmptyIffBlank | frontend/src/ChatComponent.jsx:48 | `input.trim()` is empty, so the send is skipped, exactly when the input consists only of white space and line terminators |
| DataUrl.IndexOf | frontend/src/App.jsx:30 | the index found holds the character and no earlier index does; with no result, the character does not occur |
| DataUrl.Split | frontend/src/App.jsx:30 | `split` always yields at least one part, so `arr[0]` exists |
| DataUrl.SplitPartsFree | frontend/src/App.jsx:30 | no part produced by `split(',')` contains a comma |
| DataUrl.JoinSplit | frontend/src/App.jsx:30 | joining the parts of a split with the separator gives back the original string |
| DataUrl.SplitJoin | frontend/src/App.jsx:30 | splitting a join of separator-free parts gives back exactly those parts |
| DataUrl.MimeOf | frontend/src/App.jsx:30 | the definition of `arr[0].match(/:(.*?);/)[1]`, `None` when the match is `null`; its results are stated by the next three rows |
| DataUrl.LazyToSemicolon | frontend/src/App.jsx:30 | the lazy `(.*?);` ends at a `;` that is preceded by no `;` and no line terminator |
| DataUrl.SemicolonFirst | frontend/src/App.jsx:30 | conversely, the lazy `(.*?);` ends at the first `;` whenever no line terminator precedes it |
| DataUrl.MimeOfPlainHeader | frontend/src/App.jsx:30 | in a header without line terminators, `match(/:(.*?);/)[1]` is the text between the first `:` and the next `;` |
| DataUrl.MimeOfPlainHeaderNone | frontend/src/App.jsx:30 | in a header without line terminators where no `;` follows any `:`, the match is `null` |
| DataUrl.HeaderBeforeComma | frontend/src/App.jsx:30 | `arr[0]` is the text before the first comma |
| DataUrl.Header | frontend/src/App.jsx:30 | the definition of `arr[0]`; stated by `HeaderBeforeComma` and `OneComma` |
| DataUrl.Payload | frontend/src/App.jsx:31 | the definition of `arr[1]` as `atob` receives it, `"undefined"` without a comma; stated by `OneComma` |
| DataUrl.OneComma | frontend/src/App.jsx:30-31 | for a URL with a single comma, `arr[0]` is the text before it and `arr[1]`, which `atob` receives, is the text after it |
| DataUrl.Base64Header | frontend/src/App.jsx:30 | the header `data:<mime>;base64` yields the MIME type `<mime>` |
| DataUrl.BlobType | frontend/src/App.jsx:35 | the Blob type is always printable ASCII without upper-case letters; a printable option gives a type of the same length that agrees with it up to ASCII case, so an option already in lower case is kept; any other option gives the empty type |
| DataUrl.BlobTypeIdempotent | frontend/src/App.jsx:35 | normalising a Blob type a second time changes nothing |
| DataUrl.BlobTypeIgnoresCase | frontend/src/App.jsx:35 | two printable options that differ only in ASCII case give the same Blob type |
| DataUrl.CodeByte | frontend/src/App.jsx:33 | the definition of what `u8arr[n] = bstr.charCodeAt(n)` stores, the code modulo 256 |
| DataUrl.Bytes | frontend/src/App.jsx:31-34 | the definition of the filled `Uint8Array`, one `CodeByte` per character; `DataUrlToFile` proves the loop fills exactly these bytes |
| DataUrl.ErrorMessage | frontend/src/App.jsx:30-31 | the definition of the `message` of the two exceptions the conversion can raise, the `[1]` of a null match and a rejected `atob`; `FailuresAreErrorStyled` proves both are shown as errors |
| DataUrl.ToFile | frontend/src/App.jsx:29-36 | the definition of `dataURLtoFile`, with its two exceptions as `Failure`; its results are stated by the lemmas `Base64DataUrl`, `Base64DataUrlNotDecoded` and `NoColonNoMime` and by the method `DataUrlToFile` |
| DataUrl.Base64DataUrl | frontend/src/App.jsx:29-36 | a webcam URL `data:<mime>;base64,<payload>` whose payload `atob` decodes converts to a file of the decoded bytes, with the given name and the normalised MIME type |
| DataUrl.Base64DataUrlNotDecoded | frontend/src/App.jsx:31 | the same URL with a payload that `atob` rejects fails with the decoding error |
| DataUrl.NoColonNoMime | frontend/src/App.jsx:30 | a URL whose header has no `:` fails with the missing-MIME error, before `atob` is called |
| DataUrl.DataUrlToFile | frontend/src/App.jsx:29-36 | the filling loop yields exactly the file (or the error) that `ToFile` specifies, and it writes the indices in descending order, one per character |
| Dashboard.DropTrailingSlashes | frontend/src/App.jsx:254-255 | the result is a prefix of the path that does not end in a slash, and only slashes were dropped |
| Dashboard.RouteMatches | frontend/src/App.jsx:253-256 | the definition of a route matching a path as react-router compiles it: the route in any ASCII case, then only slashes; stated by the next two rows |
| Dashboard.Normalized | frontend/src/App.jsx:253-256 | the definition of a path lower-cased with its trailing slashes dropped, the form in which `PageAt` is stated |
| Dashboard.RouteMatchesNormalized | frontend/src/App.jsx:255 | a route such as `/dashboard` matches a path, in any ASCII case and with any trailing slashes, exactly when the lower-cased path without trailing slashes is the route |
| Dashboard.RootMatchesNormalized | frontend/src/App.jsx:254 | a path matches the root route exactly when it consists of slashes only |
| Dashboard.PageAt | frontend/src/App.jsx:250-258 | a path renders the login screen exactly when it normalises to the empty text and the dashboard exactly when it normalises to `/dashboard`; any other path renders nothing |
| Dashboard.DashboardPathVariants | frontend/src/App.jsx:255 | `/Dashboard/` reaches the dashboard, while `/dashboards` reaches nothing |
| Dashboard.ViewOf | frontend/src/Dashboard.jsx:10-18 | the dashboard redirects to `/` exactly when there is no state or its name is falsy; otherwise it shows the state's five fields and gives the chat the same fields, with `id` as `faceId` |
| Dashboard.GuardAdmitsMissingId | frontend/src/Dashboard.jsx:11-18 | a state holding only a name passes the guard, and the chat then receives a falsy `faceId` |
| Dashboard.SignOut | frontend/src/Dashboard.jsx:40-41 | Sign Out leads to the login screen with no state, a location the guard redirects |
| Home.ErrorText | frontend/src/App.jsx:52 | the definition of the error text, the response's `detail` when truthy and else `error.message`, also used at line 78; its messages are proved error-styled by `FailuresAreErrorStyled` |
| Home.IsErrorStyled | frontend/src/App.jsx:236 | the definition of the red styling test, a message that includes "Error" or "Unknown"; see the next three rows |
| Home.MatchLocation | frontend/src/App.jsx:65-73 | the definition of the location `navigate('/dashboard', { state })` reaches, with the five response fields; stated by `LoginReachesDashboard` |
| Home.FailureMessage | frontend/src/App.jsx:52 | every `"Error: " + ...` message is styled as an error |
| Home.FailuresAreErrorStyled | frontend/src/App.jsx:236 | the error messages of both handlers, the conversion errors and the unknown-face message are all styled as errors |
| Home.SuccessCanLookLikeFailure | frontend/src/App.jsx:236 | a success message that mentions "Unknown" is styled as an error too |
| Home.LoginReachesDashboard | frontend/src/App.jsx:64-73 | a match navigates to the dashboard page, which shows the session exactly when the returned name is truthy, with the response's fields and its `id` as the chat's `faceId` |
| Home.HomeScreen.HasImage | frontend/src/App.jsx:39 | the definition of `imgSrc` being truthy, also tested at lines 59, 134 and 184: a frame is present and not the empty string |
| Home.HomeScreen.DraftsFilled | frontend/src/App.jsx:39 | the definition of the draft half of that guard being false (no `!name`, `!age`, `!height` or `!weight`), also at line 202: none of the four string drafts is empty |
| Home.HomeScreen.ShowsMessage | frontend/src/App.jsx:235 | the definition of when the status line is on screen: a non-empty message outside the home view, since line 235 lies inside the block of lines 127-244 |
| Home.HomeScreen.ShowsError | frontend/src/App.jsx:236 | the definition of a status line shown in red: shown, and error-styled |
| Home.HomeScreen.Valid | frontend/src/App.jsx:8-82 | the invariant every method keeps: drafts are non-empty only while registering (Cancel and a successful registration clear them), the home view holds no image, and `isLoading` is set exactly while a request is in flight |
| Home.HomeScreen.RegisterEnabled | frontend/src/App.jsx:184-202 | the definition of the Register button being on screen (register mode, after a capture) and not disabled (not loading, four non-empty drafts) |
| Home.HomeScreen.LoginEnabled | frontend/src/App.jsx:184-210 | the definition of the Login button being on screen (login mode, after a capture) and not disabled (not loading) |
| Home.HomeScreen.constructor | frontend/src/App.jsx:8-16 | the screen starts on the home view, with empty drafts and message, no image and not loading |
| Home.HomeScreen.ChooseLogin | frontend/src/App.jsx:106 | from the home view, the mode becomes login and the invariant is kept |
| Home.HomeScreen.ChooseRegister | frontend/src/App.jsx:119 | from the home view, the mode becomes register and the invariant is kept |
| Home.HomeScreen.EditName | frontend/src/App.jsx:153 | while registering before a capture, the name draft becomes the typed value |
| Home.HomeScreen.EditAge | frontend/src/App.jsx:162 | the same for the age draft, which is a string |
| Home.HomeScreen.EditHeight | frontend/src/App.jsx:169 | the same for the height draft |
| Home.HomeScreen.EditWeight | frontend/src/App.jsx:176 | the same for the weight draft |
| Home.HomeScreen.Capture | frontend/src/App.jsx:19-22 | the image becomes the webcam's screenshot, which may be missing |
| Home.HomeScreen.Retake | frontend/src/App.jsx:24-27 | the image and the message are cleared and nothing else changes |
| Home.HomeScreen.Cancel | frontend/src/App.jsx:220-229 | back on the home view with the message, the image and the four drafts cleared; a request in flight is left alone |
| Home.HomeScreen.StartRegister | frontend/src/App.jsx:38-43 | with an empty draft or no image, nothing is sent; otherwise either the converted file is sent with the drafts and the screen is loading, or the conversion error is shown and loading ends |
| Home.HomeScreen.CompleteRegister | frontend/src/App.jsx:44-55 | on success the server's message is set (hidden on the home view) and the image, the drafts and the mode are reset; on failure only the error message (`detail`, else `message`) changes; loading ends either way |
| Home.HomeScreen.StartLogin | frontend/src/App.jsx:58-63 | with no image, nothing is sent; otherwise either the converted file is sent and the screen is loading, or the conversion error is shown |
| Home.HomeScreen.CompleteLogin | frontend/src/App.jsx:64-81 | a truthy match navigates to the dashboard with the five response fields; no match shows the unknown-face message; a failure shows the error; loading ends and the mode, image and drafts are kept |
| Chat.Greeting | frontend/src/ChatComponent.jsx:7 | the definition of the greeting text; its contents are stated by `GreetingMentionsUser` and `Scenarios.BobGreeting` |
| Chat.GreetingMentionsUser | frontend/src/ChatComponent.jsx:7 | the greeting mentions `String(name)` and `String(age)` |
| Chat.InitialMessages | frontend/src/ChatComponent.jsx:6-8 | the list starts as one AI message that mentions the user's name and age |
| Chat.FetchesHistory | frontend/src/ChatComponent.jsx:23 | the definition of the history being requested, a truthy `faceId`; `LoadHistory` is stated with it |
| Chat.HistoryMessages | frontend/src/ChatComponent.jsx:31-34 | the history becomes one message per entry, in order, with `role` as sender and `content` as text |
| Chat.BreakLines | frontend/src/ChatComponent.jsx:91 | no newline is left after `replace(/\n/g, '<br/>')` |
| Chat.ReplyText | frontend/src/ChatComponent.jsx:57-59 | the definition of the AI message's text, the response or the fixed apology; `CompleteSend` and `Scenarios.SendFails` state where it goes |
| Chat.LazyToStars | frontend/src/ChatComponent.jsx:91 | the lazy `(.*?)\*\*` ends at the first `**` that no line terminator precedes |
| Chat.StarsFirst | frontend/src/ChatComponent.jsx:91 | conversely, the lazy match ends at the first `**` whenever no line terminator precedes it |
| Chat.Emphasize | frontend/src/ChatComponent.jsx:91 | the definition of the global `replace(/\*\*(.*?)\*\*/g, '<strong>$1</strong>')`; its results are stated by the rows that follow |
| Chat.ToHtml | frontend/src/ChatComponent.jsx:91 | the definition of the HTML a message is rendered with, newlines first and bold second; its results are stated by the `Rendered...` rows |
| Chat.BreakLinesAppend | frontend/src/ChatComponent.jsx:91 | replacing newlines works piece by piece over a concatenation |
| Chat.BreakLinesPlain | frontend/src/ChatComponent.jsx:91 | a text without newlines is left unchanged by the first replacement |
| Chat.EmphasizePlain | frontend/src/ChatComponent.jsx:91 | a text without `*` is left unchanged by the bold replacement |
| Chat.EmphasizeAfterPlain | frontend/src/ChatComponent.jsx:91 | a prefix without `*` is kept as it is and the replacement goes on after it |
| Chat.EmphasizePair | frontend/src/ChatComponent.jsx:91 | a `**x**` pair with a plain `x` becomes `<strong>x</strong>` and the replacement resumes after the closing `**`, whatever follows |
| Chat.EmphasizeKeepsNoNewline | frontend/src/ChatComponent.jsx:91 | the bold replacement introduces no newline |
| Chat.RenderedHasNoNewline | frontend/src/ChatComponent.jsx:91 | a rendered message contains no newline |
| Chat.RenderedPlain | frontend/src/ChatComponent.jsx:91 | a text with neither `*` nor newline is rendered as it is |
| Chat.RenderedBold | frontend/src/ChatComponent.jsx:91 | `p**x**q` is rendered as `p<strong>x</strong>q` when no part has a `*` or a newline and `x` has no line terminator |
| Chat.BreakLinesJoin | frontend/src/ChatComponent.jsx:91 | two lines joined by a newline become the lines joined by `<br/>` |
| Chat.RenderedLineBreak | frontend/src/ChatComponent.jsx:91 | two lines without `*` are rendered joined by `<br/>` |
| Chat.ChatView.constructor | frontend/src/ChatComponent.jsx:4-10 | the chat mounts with the greeting alone, an empty input and no request in flight |
| Chat.ChatView.Valid | frontend/src/ChatComponent.jsx:53-61 | the invariant every method keeps: loading implies a send in flight, but not the converse, because the Enter key (line 112) ignores `isLoading` |
| Chat.ChatView.SendEnabled | frontend/src/ChatComponent.jsx:118 | the definition of the Send button not being disabled, which is not loading |
| Chat.ChatView.LoadHistory | frontend/src/ChatComponent.jsx:20-45 | with a truthy `faceId` and a non-empty history, the list becomes the history; a falsy `faceId`, an empty history or a failure leave the list unchanged |
| Chat.ChatView.EditInput | frontend/src/ChatComponent.jsx:111 | the input becomes the typed value |
| Chat.ChatView.StartSend | frontend/src/ChatComponent.jsx:47-56 | a blank input changes nothing and sends nothing; otherwise the untrimmed input is appended once as a user message, the input is cleared, the screen is loading, and the request carries the input and the five props |
| Chat.ChatView.CompleteSend | frontend/src/ChatComponent.jsx:56-62 | exactly one AI message, the reply or the fallback apology, is appended after the current list, and loading ends |
| Scenarios.ShotConverts | frontend/src/App.jsx:137-142 | a webcam frame in `image/jpeg` with a comma-free payload, given an `atob` that accepts the payload, converts to a file whose type is `image/jpeg` |
| Scenarios.FormFilled | frontend/src/App.jsx:199-202 | after four non-empty drafts and a capture, the Register button is enabled |
| Scenarios.RegistrationSent | frontend/src/App.jsx:38-43 | pressing Register sends the drafts with the converted file and waits for the answer |
| Scenarios.RegisterAlice | frontend/src/App.jsx:44-50 | a successful registration sets the service's message, back on the home view, with all drafts empty |
| Scenarios.StaleRegisteredMessage | frontend/src/App.jsx:235 | after a successful registration its message is not on screen on the home view, and it is shown, stale, once the login view is opened |
| Scenarios.LoginSent | frontend/src/App.jsx:58-63 | pressing Login with a convertible frame keeps the mode and the image and waits for the answer |
| Scenarios.LoginBob | frontend/src/ChatComponent.jsx:6-45 | after a match for Bob, 25 years old, and an empty history, the chat shows exactly his greeting |
| Scenarios.BobGreeting | frontend/src/ChatComponent.jsx:7 | Bob's greeting written out, with `25` as the age |
| Scenarios.UnknownFace | frontend/src/App.jsx:74-76 | no match: no navigation, the screen stays in login mode with the image kept, and the message is styled as an error |
| Scenarios.SendFails | frontend/src/ChatComponent.jsx:58-59 | a failed chat request leaves the greeting, the user's message once, and then the fallback |
| Scenarios.EnterKeyRace | frontend/src/ChatComponent.jsx:112-118 | two sends made with the Enter key before any reply: the Send button is disabled after the first, yet the second is sent, and after the first reply loading is already off while one send still waits |
| Scenarios.LateRegistration | frontend/src/App.jsx:44-50 | a registration answered after Cancel and a switch to login mode still puts the screen back on the home view with its message set |
| Scenarios.LateFailureHidden | frontend/src/App.jsx:235 | a registration that fails after Cancel sets its error on the home view, where no red status line is shown |
| Scenarios.HistoryOverwritesSend | frontend/src/ChatComponent.jsx:36 | a message sent before a non-empty history arrives is replaced by the history, and the reply is appended after it |

## Left out

- Rendering (JSX, styling, animations) and `scrollToBottom` are left out, because they change no state the model reads.
- `console.log` and `console.error` are left out, because they do not affect the screens.
- The webcam is a parameter. `getScreenshot()` is the argument of `Capture`, and a missing frame is `None`.
- `atob` is a parameter of the conversion, a function that may reject its input. Base64 decoding itself is not modelled.
- The request helpers in `frontend/src/api.js` (axios) are not part of this model. Their results are parameters of the `Complete...` methods. The backend is not part of this model either.
- Asynchrony is modelled as two events per request. React's batching and re-render timing are not modelled.
- The history load, request and response together, is modelled as one atomic event. Sends and replies may come before or after it. When it comes after a send it replaces the list, as line 36 does (`Scenarios.HistoryOverwritesSend`).
- The chat's props are constant for its lifetime. The model does not limit `LoadHistory` to one call, although the effect runs on mount and again only when `faceId` changes. A change of props is not modelled.
- JavaScript numbers are modelled as integers only. Fractions, `NaN` and their `String()` forms are left out.
- Home.ErrorText: a non-string `detail`, such as FastAPI's list of validation errors, is treated through `String()` of the values modelled. Objects and arrays are not among those values.
- DataUrl.ErrorMessage: it uses the wording of Chromium-based browsers for the two exceptions. Other engines word them differently.
- A Dafny `char` is a Unicode scalar value, not a UTF-16 code unit. `charCodeAt` on a surrogate pair and `length` in code units are not modelled.
- DataUrl.DataUrlToFile: the loop counter ends at -1 in the source. The model's counter stops at 0, which is not observable.
- Home.HomeScreen.StartRegister and Home.HomeScreen.StartLogin require that no request is in flight. That is what the disabled Register and Login buttons, their only callers, guarantee.
- The status line's styling classes other than the red error class are not modelled. Whether the line is on screen at all is `HomeScreen.ShowsMessage`.
- Dashboard.PageAt: the path is the one left after the router's `basename` (`import.meta.env.BASE_URL`) is removed; the basename, the percent-decoding of the path and case folding of non-ASCII letters are not modelled. For the ASCII routes `/` and `/dashboard`, the `i` flag of a regular expression without the `u` flag never makes a non-ASCII character match an ASCII one.
