# Task manager frontend — a Dafny model of its core

The system is a small React task manager. Users register and log in. On the
dashboard they write tasks with a title, a rich-text description (a Tiptap
editor) and a due date. A list under the form shows their tasks and lets them
delete one. This project models the parts of the frontend that make decisions:

- **Registration and login pages** (`Register`, `Login`): the form state and
  the `validate` rules (`Validation`, built on `Strings` and `EmailPattern`).
  `handleChange` and its error clearing (`FormErrors`). The asynchronous
  `handleSubmit` is split in two:
  - `BeginSubmit` runs up to the request and returns the body to send.
  - `CompleteSubmit` runs once the server has answered; the answer is a
    parameter.
- **The rich-text editor** (`Editor`):
  - the `fontSize` and `fontFamily` attributes' `parseHTML` and `renderHTML`, with the round trips between them;
  - the guard of the effect that syncs the host's value into the editor;
  - the `onUpdate` emission;
  - the heading and font option tables.
- **The task list** (`Tasks`):
  - the fetch transitions (`BeginFetch` and `CompleteFetch`);
  - the delete filter and its confirmed delete;
  - the choice of render branch (loading, error, empty, or cards).
- **The dashboard's task form** (`Dashboard`): the field setters, and
  `handleSubmit` run to completion. That covers its guard, the payload it
  sends, the reset, the refresh counter and the success banner.

Each component's state cells are the fields of a class. Each handler is a
method that states the whole new state. The rules behind the handlers are
functions and predicates, and the lemmas state what the pages promise about
them:

- `validate` accepts exactly the forms that satisfy the rules;
- the e-mail test is the regular expression `^[^\s@]+@[^\s@]+\.[^\s@]+$`;
- a rendered font style parses back;
- deleting an id keeps every other task in order.

The e-mail regular expression appears in two forms:

- `MatchesEmailRegex` is the pattern written as a logical statement: some
  split of the string is a local part, an `@` and a dotted domain.
- `EmailRegexTest` is an executable check, and it is proved to agree with the
  statement on every string.

JavaScript's `trim` is modelled with the full set of white-space characters
that ECMAScript trims. `includes` is modelled case-sensitively, as in the
source.

## Model

| member | source | states |
|---|---|---|
| Strings.Trim | src/Pages/register.jsx:81-82 | `String.prototype.trim`: the result is a slice `s[a..b]` of the input whose prefix `s[..a]` and suffix `s[b..]` are all white space, so the middle is kept as it was. It is empty exactly when the input is all white space. A non-empty result starts and ends with a non-white-space character. An input without white space comes back unchanged. |
| Strings.TrimStartCases | src/Pages/register.jsx:44 | Trimming the front empties the string exactly when it is all white space, and leaves a string without white space unchanged. |
| Strings.TrimIdempotent | src/Pages/register.jsx:81-82 | Trimming a trimmed string changes nothing. |
| Strings.Includes | src/Pages/login.jsx:87-90 | `message.includes(sub)` holds exactly when `sub` occurs at some position of `message`. |
| EmailPattern.EmailRegexTest | src/Pages/register.jsx:52-56 | The executable `emailRegex.test` holds exactly when the string matches `^[^\s@]+@[^\s@]+\.[^\s@]+$`. |
| EmailPattern.MatchShape | src/Pages/register.jsx:52 | A matching address has no white space and exactly one `@`, so trimming it changes nothing. |
| EmailPattern.AcceptedExamples | src/Pages/register.jsx:52 | The pattern accepts "ann@mail.com" and "a@b.c.d", a domain with two dots. |
| EmailPattern.RejectedExamples | src/Pages/register.jsx:52 | The pattern rejects two `@` ("a@b@c.d"), a leading space (" ann@mail.com") and a domain without a dot ("ann@mail"). |
| FormErrors.ClearError | src/Pages/register.jsx:31-37 | Afterwards the key has no truthy error: a present entry becomes `""`, an empty or missing one leaves the map as it was. The key set and every other entry are unchanged. |
| FormErrors.Overlay | src/Pages/register.jsx:97-100 | `{...prev, ...serverErrors}`: a key the server names takes the server's message; every other key keeps its entry. |
| Validation.UsernameError | src/Pages/register.jsx:43-50 | The username passes exactly when it is not blank after trimming and has at least 3 characters counted before trimming. Otherwise the message is "Username is required" for a blank name, else the length message. |
| Validation.EmailError | src/Pages/register.jsx:51-59 | The e-mail passes exactly when it is not blank and matches the pattern untrimmed, so a passing address has no surrounding white space. A blank address gets "Email is required"; any other failure gets "Please enter a valid email address". |
| Validation.PasswordError | src/Pages/register.jsx:60-67 | The password passes exactly when it has at least 6 characters, untrimmed. An empty password gets "Password is required"; a shorter one gets the length message. |
| Validation.PaddedEmailIsInvalid | src/Pages/register.jsx:53-58 | An address with a leading space is not blank, so it gets the "valid email" message, not the "required" one. |
| Validation.BlankEmailIsRequired | src/Pages/register.jsx:53-55 | An all-space address gets "Email is required". |
| Validation.PasswordNotTrimmed | src/Pages/register.jsx:61-66 | Six spaces are an acceptable password; two spaces get the length message. |
| Register.WithField | src/Pages/register.jsx:26-29 | `{...formData, [name]: value}` sets the named field and leaves the other two unchanged. |
| Register.ValidForms | src/Pages/register.jsx:40-71 | `validate` accepts a form exactly when three things hold: the username is non-blank with at least 3 raw characters; the e-mail is non-blank and matches the pattern; the password has at least 6 characters. |
| Register.ValidatedErrors | src/Pages/register.jsx:40-70 | The committed error map has each failing field's message. Each passing field keeps its previous entry, and other keys are untouched. When everything passes, the map is unchanged. |
| Register.Validate | src/Pages/register.jsx:40-71 | The loop-free `validate` body returns true exactly when no rule fails, and commits the map `ValidatedErrors` describes. |
| Register.RequestFor | src/Pages/register.jsx:80-84 | The body posted to `/auth/register`: the username and the e-mail trimmed, the password as typed. What the server then receives is stated by `ValidRequest` and `LengthCountedBeforeTrim`. |
| Register.ValidRequest | src/Pages/register.jsx:80-84 | For a valid form the request carries a non-empty trimmed username, the e-mail exactly as typed (trimming changes nothing) and a password of at least 6 characters. |
| Register.LengthCountedBeforeTrim | src/Pages/register.jsx:44-49 | "  a" passes the username check because its length is counted before trimming, while the trimmed name sent to the server is "a". |
| Register.RegisterPage.constructor | src/Pages/register.jsx:7-22 | The page starts with empty fields, empty field errors, and not submitting or succeeded. |
| Register.RegisterPage.HandleChange | src/Pages/register.jsx:24-38 | Only the named field changes, and only that field's non-empty error is cleared. All other state is unchanged. |
| Register.RegisterPage.BeginSubmit | src/Pages/register.jsx:73-84 | While submitting, nothing changes and nothing is sent. Otherwise the validated error map is committed. A request with the trimmed username and e-mail and the raw password is sent exactly when the form is valid, and only then does the page enter the submitting state. |
| Register.RegisterPage.SubmitChecked | src/Pages/register.jsx:76-84 | Given each rule's outcome, it commits the validated map. It returns the request and sets the submitting flag exactly when every rule passed. |
| Register.RegisterPage.CompleteSubmit | src/Pages/register.jsx:85-104 | On success, the fields are reset to empty, the page shows success and navigates to "/". On failure with server errors, these are laid over the current map. Either way the submitting state ends. |
| Login.WithField | src/Pages/login.jsx:24-27 | Sets the named field and leaves the other unchanged. |
| Login.ValidForms | src/Pages/login.jsx:38-61 | `validate` accepts a form exactly when the e-mail is non-blank and matches the pattern and the password has at least 6 characters. |
| Login.ValidatedErrors | src/Pages/login.jsx:38-60 | Failing fields get their message, passing fields keep their entry, other keys are untouched. If everything passes, the map is unchanged. |
| Login.Validate | src/Pages/login.jsx:38-61 | Returns true exactly when both rules pass, and commits the map `ValidatedErrors` describes. |
| Login.RequestFor | src/Pages/login.jsx:70-73 | The body posted to `/auth/login`: the e-mail trimmed, the password as typed. What the server then receives is stated by `ValidRequest`. |
| Login.ValidRequest | src/Pages/login.jsx:70-73 | For a valid form the trimmed e-mail sent equals the typed one and matches the pattern, and the password has at least 6 characters. |
| Login.BlamesCredentials | src/Pages/login.jsx:87-90 | The message contains "password" or "credentials", case-sensitively; its effect on the errors is stated by `ErrorsAfterFailure` and `MessageRouting`. |
| Login.ErrorsAfterFailure | src/Pages/login.jsx:86-101 | Without a truthy server message, the errors are unchanged. A message mentioning "password" or "credentials" gives both fields "Incorrect password or email" over the captured map. Any other message lays the server's `errors` (or nothing) over the captured map. |
| Login.FailureDiscardsEditsInFlight | src/Pages/login.jsx:91-100 | Once the server gives a message, the resulting map does not depend on the errors as they stood when the answer arrived, only on the map captured at submit time. |
| Login.MessageRouting | src/Pages/login.jsx:87-90 | The message test is case-sensitive: "Wrong password" blames the credentials; "Invalid Password" does not contain "password". |
| Login.LoginPage.constructor | src/Pages/login.jsx:7-20 | The page starts with empty fields, empty field errors, and not submitting or succeeded; local storage is whatever it held. |
| Login.LoginPage.HandleChange | src/Pages/login.jsx:22-36 | Only the named field changes and only its non-empty error is cleared; all other state, including the stored token, is unchanged. |
| Login.LoginPage.BeginSubmit | src/Pages/login.jsx:63-73 | While submitting, nothing changes. Otherwise the validated map is committed. For a valid form, the request with the trimmed e-mail and the raw password is sent, the page enters the submitting state, and the handler captures the map as it stood before validation. |
| Login.LoginPage.SubmitChecked | src/Pages/login.jsx:66-73 | Given each rule's outcome, it commits the validated map. When every rule passes, it returns the request, sets the submitting flag and captures the pre-validation map, which equals the committed map. |
| Login.LoginPage.CompleteSubmit | src/Pages/login.jsx:74-105 | A token is stored under "authintication", the fields are reset, the page shows success and navigates to "/dashboard". A failure rebuilds the errors through `ErrorsAfterFailure` from the captured map. Either way the submitting state ends. |
| Editor.DefaultsRenderNothing | src/component/TiptapEditor.jsx:24-68 | Both attributes default to `null` (the font size at lines 24-25, the font family at lines 62-63), and a default attribute renders no style. |
| Editor.RenderStyle | src/component/TiptapEditor.jsx:27-34 | A falsy attribute renders no attributes. A truthy one renders a style whose property reads back as the value. |
| Editor.RenderFontSize | src/component/TiptapEditor.jsx:27-34 | `font-size: v` exactly when the font size is truthy, and nothing otherwise. |
| Editor.RenderFontFamily | src/component/TiptapEditor.jsx:66-74 | `font-family: v` exactly when the font family is truthy, and nothing otherwise. |
| Editor.ParseFontSize | src/component/TiptapEditor.jsx:26 | `parseHTML` of `fontSize` returns the extracted style text unchanged; rendered again, non-empty text gives back its own `font-size` declaration and empty text renders nothing. Its round trips are `FontSizeRoundTrip` and `FontSizeRenderStable`. |
| Editor.StripQuotes | src/component/TiptapEditor.jsx:64-65 | Removing every quote character never lengthens the string. |
| Editor.StripQuotesQuoteFree | src/component/TiptapEditor.jsx:64-65 | `replace(/['"]/g, "")` leaves no single or double quote. |
| Editor.StripQuotesKeeps | src/component/TiptapEditor.jsx:64-65 | Every character other than a quote survives the replacement, and no new character appears. |
| Editor.ParseFontFamily | src/component/TiptapEditor.jsx:64-65 | The parsed family is present exactly when the style had one, and is quote-free. |
| Editor.StripQuotesOfQuoteFree | src/component/TiptapEditor.jsx:64-65 | A quote-free string is unchanged by the replacement. |
| Editor.StripQuotesIdempotent | src/component/TiptapEditor.jsx:64-65 | Stripping twice is stripping once. |
| Editor.StripQuotesAppend | src/component/TiptapEditor.jsx:64-65 | Stripping a concatenation strips each part. |
| Editor.QuotedFamily | src/component/TiptapEditor.jsx:64-65 | A family name wrapped in quotes parses back to the bare name. |
| Editor.FontSizeRoundTrip | src/component/TiptapEditor.jsx:26-34 | Rendering a truthy font size and parsing the element's style gives the same font size back. |
| Editor.FontSizeRenderStable | src/component/TiptapEditor.jsx:26-34 | Parsing a rendered font size and rendering it again gives the same attributes. |
| Editor.FontFamilyRoundTrip | src/component/TiptapEditor.jsx:64-74 | Rendering a truthy, quote-free font family and parsing it back gives the same family. |
| Editor.FontFamilySettles | src/component/TiptapEditor.jsx:64-74 | After one parse, further render-and-parse cycles change nothing. |
| Editor.OnlyQuotesVanish | src/component/TiptapEditor.jsx:64-74 | A family made only of quotes renders a style but parses back to the empty string. |
| Editor.ShouldReplace | src/component/TiptapEditor.jsx:102 | The sync guard: an editor exists, the host value is non-empty, and it differs from the editor's current HTML. `GuardIgnoresEchoAndEmpty` and `SyncFromHost` state its consequences. |
| Editor.GuardIgnoresEchoAndEmpty | src/component/TiptapEditor.jsx:101-105 | The sync effect never replaces the document with its own HTML or with an empty value. |
| Editor.TiptapEditor.constructor | src/component/TiptapEditor.jsx:93-95 | The editor's document starts as the library's rendering of the host value. |
| Editor.TiptapEditor.SyncFromHost | src/component/TiptapEditor.jsx:101-105 | The document is replaced exactly when the guard holds against the current HTML; otherwise it is untouched. |
| Editor.TiptapEditor.UserEdit | src/component/TiptapEditor.jsx:96-98 | `onUpdate` hands the host exactly the document's new HTML. |
| Editor.HeadingMenu | src/component/TiptapEditor.jsx:109-135 | The heading menu has five entries: a paragraph entry, then headings 1 to 4 each toggling its own level, with distinct keys. |
| Editor.FontSizeOptions | src/component/TiptapEditor.jsx:137-142 | Four font sizes are offered, and each renders a `font-size` style that parses back to the same value. |
| Editor.FontFamilyQuoteFree | src/component/TiptapEditor.jsx:144-150 | Every offered font family is non-empty and quote-free. |
| Editor.FontFamilyOptions | src/component/TiptapEditor.jsx:144-150 | Five families are offered. Each offered family renders a `font-family` style and survives render-and-parse unchanged. |
| Tasks.Without | src/component/Tasks.jsx:41 | `filter(task => task.id !== id)` keeps exactly the tasks with another id and never grows the list. |
| Tasks.WithoutAppend | src/component/Tasks.jsx:41 | The filter works piecewise over a concatenation, so the kept tasks stay in their original order. |
| Tasks.WithoutCounts | src/component/Tasks.jsx:41 | Every task with another id is kept as many times as it occurred; tasks with the id occur zero times. |
| Tasks.WithoutAbsent | src/component/Tasks.jsx:41 | Deleting an id no task has leaves the list unchanged. |
| Tasks.WithoutIdempotent | src/component/Tasks.jsx:41 | Deleting the same id twice is the same as deleting it once. |
| Tasks.Render | src/component/Tasks.jsx:50-64 | The loading view is shown exactly when loading. Otherwise, a truthy error shows its message. Otherwise, an empty list shows the "no tasks" view. Otherwise the cards are the tasks in order. |
| Tasks.ErrorHidesLaterTasks | src/component/Tasks.jsx:50-52 | Once an error message is set, any non-loading render shows it whatever tasks are held. |
| Tasks.TasksList.constructor | src/component/Tasks.jsx:6-8 | The list starts empty, loading and without an error. |
| Tasks.TasksList.BeginFetch | src/component/Tasks.jsx:15-17 | Fetching shows the loading state and keeps the list and the error. |
| Tasks.TasksList.CompleteFetch | src/component/Tasks.jsx:18-25 | Loading ends. A response replaces the list and keeps any earlier error; without an earlier error the page then shows the new tasks, or the empty view. A failure records its message and keeps the list; with a non-empty message the page then shows that error. |
| Tasks.TasksList.HandleDelete | src/component/Tasks.jsx:28-48 | Only a confirmed delete that the server accepts removes the tasks with that id. Otherwise the list is unchanged. The dialog title is "Deleted!", "Error!" or nothing. |
| Dashboard.TaskForm.constructor | src/Pages/dashboard.jsx:8-13 | The form starts empty, with the editor keyed by the current time, a zero refresh counter and no banner. |
| Dashboard.AllFilled | src/Pages/dashboard.jsx:17 | The required-field guard: title, description and due date are all non-empty (truthy strings). `HandleSubmit` states what happens on each side of it. |
| Dashboard.TaskForm.SetTitle | src/Pages/dashboard.jsx:92 | Sets the title; everything else is unchanged. |
| Dashboard.TaskForm.SetDescription | src/Pages/dashboard.jsx:108 | Sets the description to the editor's HTML; everything else is unchanged. |
| Dashboard.TaskForm.SetDueDate | src/Pages/dashboard.jsx:131 | Sets the due date; everything else is unchanged. |
| Dashboard.TaskForm.HideSuccess | src/Pages/dashboard.jsx:35-37 | Hides the banner; everything else is unchanged. |
| Dashboard.TaskForm.HandleSubmit | src/Pages/dashboard.jsx:15-47 | With an empty field, it only alerts "Please fill all fields". Otherwise it sends the three fields as they stand. Whatever the outcome, it empties them and re-keys the editor, so a second submit would be refused. Only a created task bumps the refresh counter and shows the banner. A failure alerts. |

## Left out

- Network, storage and navigation are not performed. The server's answers (`axios` results) are parameters of the completion methods. The storage write and the navigation target appear as state and results. `console` output is not modelled.
- Interleavings of asynchronous handlers are not modelled beyond the cases above. Each page's submit is assumed to complete before the next begins. The task list's delete is modelled on the current list; the source filters the list its closure captured. The dashboard's submit is modelled atomically, because the source has no in-flight flag.
- Timers are not modelled: `setTimeout` durations, and the banner hiding two seconds after success. `HideSuccess` stands for both the timer and the close button.
- `Date.now()` is the parameter `now`. The dashboard calls it twice when resetting; only the final editor key is modelled.
- The rest of the Tiptap library is not modelled: the editor's command chains, toggles and `isActive` queries, the font-size and font-family menu handlers, and the library's HTML parse-and-serialize. The last is a function parameter (`normalize`) of the editor.
- Browser CSS normalisation is not modelled. `element.style.fontSize` and `element.style.fontFamily` read back the declared text as written.
- The sync effect's branch with no mounted editor is covered only by the guard predicate: the modelled editor object always exists.
- String lengths count characters, not UTF-16 code units.
- Non-string server values are not modelled: a message or token that is not a string, or a missing `data` object.
- Layout, styling, the password-visibility toggle and the task list's `successMessage` state (rendered at `src/component/Tasks.jsx:57-61` but never set, so always `null`) are not modelled.
- Strings.IndexOf, Strings.TrimStart and Strings.TrimEnd are helpers of the functions above, and are stated only as far as those need.
- Editor.StripQuotes: its own contract states only that the length never grows. That the result is quote-free and keeps every other character is stated by `StripQuotesQuoteFree` and `StripQuotesKeeps`.
