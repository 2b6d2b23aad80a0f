# Store draft controller of the sales dashboard

This project models the two store forms of the sales dashboard in Dafny and proves properties about them:

- `EditStore` (src/sales/pages/EditStore.jsx) edits an existing store.
- `AddStore` (src/sales/pages/AddStore.jsx) creates a store.

Below the markup, each form is a small state machine over a few pieces of state:

- the draft record (`formData`);
- the error object (`formErrors`, edit form only);
- the map centre and the marker;
- the loading flags;
- the requests sent and the messages shown.

React's asynchronous boundaries and effects become explicit steps:

- the store fetch;
- the geolocation callback;
- the submit request;
- the effect that rewrites `loc` whenever the marker moves.

Each step is a method of a class whose fields are the component's state.

The modules are:

- `JsText`: the JavaScript string semantics the forms rely on.
  - The white-space class of `trim()` and `\s`.
  - `trim()` itself.
  - The phone rule `^[0-9]{10,13}$`, both as the regular-expression engine runs it and as a declarative predicate.
  - `String(n)` for integers of magnitude below 1e21.
- `Objects`: a JavaScript plain object.
  - Keys are kept in insertion order, which is the order `Object.keys` reports.
  - It supports the spread update `{ ...o, [k]: v }` and the rest pattern `{ k, ...rest }`.
  - A field holds a string, an integer, `NaN`, a boolean, `null`, `undefined`, a File, or any other value (a number with a fraction, an array, a nested object) known by the text `String(v)` gives it.
- `Coords`: the coordinate text codec.
  - Format writes `(${lat}, ${lng})`.
  - Parse is a leftmost-match reading of `/\(([-\d.]+),\s*([-\d.]+)\)/`.
  - Both work at the token level: a coordinate is the text JavaScript writes for the number.
- `FormPayload`: the multipart bodies built by the `Object.keys(formData).forEach(... uploadData.append ...)` loops.
  - `CreateBody` sends every key.
  - `UpdateBody` skips an `image` key whose value is falsy.
- `Interaction`: what comes in from outside and what goes out.
  - In: change events, fetch and submit outcomes, geolocation results.
  - Out: requests and notices.
- `EditStore`: the validation rules, plus the class `EditStoreForm`.
- `AddStore`: the starting draft, plus the class `AddStoreForm`.

Behaviour of the code worth knowing, which the model follows:

- **The create form does no validation of its own.** The submit handler posts whatever the draft holds. The only checks are the browser's `required` and `min` attributes on the inputs, and those are not part of the model. `AddStore.AddStoreForm.BeginSubmit` therefore always sends.
- **The update body keeps a stored image path.** It omits `image` only when the value is falsy, not "when no new image was selected". After loading, `image` holds the stored image path, a non-empty string. That path is sent back as text (`FormPayload.UpdateBodyResendsStoredImagePath`).
- **`validateForm` is not pure.** It replaces `formErrors` with the errors it builds.
- **A change empties a field's error rather than removing it.** `handleChange` sets the entry for the changed name to `""`.
- **The round trip does not hold for every coordinate.** JavaScript writes non-zero numbers whose magnitude is below 1e-6 in exponent form (`1e-7`), which `[-\d.]+` cannot match. The round trip therefore holds for token texts only (`Coords.ParseFormat`, `Coords.ExponentTextDoesNotParse`).
- **An unreadable error body does not fall back to the generic message.** When a failed response has no JSON body, the message of the parse error is shown (`Interaction.FailureText`, case `Thrown`).
- **The create form writes `loc` from a stale marker.** Its geolocation callbacks close over the marker of the render in which the button was pressed, and build `loc` from that marker, not from the fix. The marker effect that follows overwrites it with the fix, even when the map was clicked while the position was being found (`AddStore.AddStoreForm.ApplyLocation`, `AddStore.AddStoreForm.Locate`, `AddStore.AddStoreForm.LocateAcrossClick`).
- **An unparsed stored `loc` is kept as it was.** If the stored text holds no point, the marker stays at the fallback point, so text and marker disagree until the marker moves (`EditStore.EditStoreForm.Load`).

## Model

| member | source | states |
|---|---|---|
| `JsText.PhonePatternMeaning` | src/sales/pages/EditStore.jsx:133 | the engine's run of `^[0-9]{10,13}$` (10 to 13 leading digits, then the end) accepts exactly the strings of 10 to 13 ASCII digits, with nothing trimmed |
| `JsText.TrimStart` | src/sales/pages/EditStore.jsx:124 | the result is a suffix of the input; everything cut off is white space; the result does not start with white space |
| `JsText.TrimEnd` | src/sales/pages/EditStore.jsx:124 | the result is a prefix of the input; everything cut off is white space; the result does not end with white space |
| `JsText.Trim` | src/sales/pages/EditStore.jsx:123-131 | `s.trim()`: the trailing trim of the leading trim; what it gives is stated by `TrimResult` |
| `JsText.PhonePatternTest` | src/sales/pages/EditStore.jsx:133 | `/^[0-9]{10,13}$/.test(s)` as the engine runs it: 10 to 13 leading digits, then the end of the input; `PhonePatternMeaning` states what it accepts |
| `JsText.TrimResult` | src/sales/pages/EditStore.jsx:124-132 | `trim()` gives the empty text exactly for blank input; a non-empty result begins and ends with a character that is not white space |
| `Objects.Falsy` | src/sales/pages/EditStore.jsx:222 | `!v`: the empty string, 0, `NaN`, `false`, `null` and `undefined` are falsy; a File and every other value are not |
| `Objects.Set` | src/sales/pages/EditStore.jsx:159-162 | after `{ ...o, [k]: v }`, `k` holds `v` and every other key keeps its value; the key order is kept, with a new key appended at the end |
| `Objects.SetOverwrite` | src/sales/pages/AddStore.jsx:58-76 | two writes of the same key in a row leave only the second value |
| `Objects.SetSame` | src/sales/pages/AddStore.jsx:58-63 | writing the value a key already holds leaves the object as it was |
| `Objects.Delete` | src/sales/pages/EditStore.jsx:89 | the rest object of `{ k, ...rest }` lacks `k`, keeps every other key with its value, and keeps the key order |
| `Coords.Format` | src/sales/pages/EditStore.jsx:116 | the template text `(${lat}, ${lng})` of a point; `ParseFormat` proves it reads back, `ExponentTextDoesNotParse` where it does not |
| `Coords.Parse` | src/sales/pages/EditStore.jsx:81 | the captured pair of `loc.match(...)`: the match at the first index where one starts, or none; `ParseSound` and `ParseComplete` state what it accepts |
| `Coords.MatchFromLeftmost` | src/sales/pages/EditStore.jsx:81 | the search gives no match exactly when no index from the start on begins one; otherwise it gives the match at the first index that does |
| `Coords.MatchAtShape` | src/sales/pages/EditStore.jsx:81 | a match at `i` is `(`, a non-empty `[-\d.]` run up to `,`, white space, a non-empty `[-\d.]` run, `)`; its captures are the two runs |
| `Coords.MatchAtComplete` | src/sales/pages/EditStore.jsx:81 | wherever that shape occurs, the pattern matches there and captures the two runs |
| `Coords.ParseSound` | src/sales/pages/EditStore.jsx:81 | a successful parse returns the two runs of the leftmost occurrence of the shape; both are tokens over `[-0-9.]` |
| `Coords.ParseComplete` | src/sales/pages/EditStore.jsx:81 | text holding the shape anywhere always parses |
| `Coords.ParseFormat` | src/sales/pages/EditStore.jsx:113-118 | round trip: the `loc` text the marker effect writes for two tokens parses back to the same two tokens |
| `Coords.ParseRejects` | src/sales/pages/EditStore.jsx:81-87 | text without a parenthesised pair (`"garbage"`, `"(1.5,)"`) gives no match, so the marker stays where it is |
| `Coords.ExponentTextDoesNotParse` | src/sales/pages/EditStore.jsx:116 | for any latitude text written in exponent form (number characters around one `e`) and any token longitude, the latitude is not a token and the `loc` text does not parse back |
| `Coords.FallbackText` | src/sales/pages/AddStore.jsx:33-41 | the starting `loc` text is the formatted fallback point `[-6.2, 106.816666]` and parses back to it |
| `FormPayload.PartOf` | src/sales/pages/AddStore.jsx:92 | `FormData.append` stores a File as a file part and anything else as the text `String(v)`: `null` becomes "null", `undefined` "undefined", a boolean "true" or "false", `NaN` "NaN" |
| `FormPayload.Fields` | src/sales/pages/AddStore.jsx:91-93 | one field per key, in key order, each holding that key's value as `append` stores it |
| `FormPayload.CreateBody` | src/sales/pages/AddStore.jsx:90-93 | the create body: the fields of every key of the draft, in `Object.keys` order; `CreateBodyMembers` states its members |
| `FormPayload.UpdateBody` | src/sales/pages/EditStore.jsx:220-226 | the update body: the fields of the keys `UpdateKeys` gives, in order; `UpdateBodyMembers` and `UpdateBodyCutsEmptyImage` state what it holds |
| `FormPayload.UpdateKeys` | src/sales/pages/EditStore.jsx:221-224 | the update loop appends exactly the draft's keys, except `image` when its value is falsy |
| `FormPayload.UpdateFieldsStep` | src/sales/pages/EditStore.jsx:221-226 | one turn of the update loop appends the key's field, unless the key is an `image` holding a falsy value |
| `FormPayload.UpdateBodyMembers` | src/sales/pages/EditStore.jsx:220-226 | a field is in the update body exactly when the draft has that key with that value, unless it is a falsy `image` |
| `FormPayload.UpdateBodyCutsEmptyImage` | src/sales/pages/EditStore.jsx:221-225 | with a falsy image, the update body is the create body with the one `image` field cut out of its place; otherwise the two bodies are equal |
| `FormPayload.UpdateBodyResendsStoredImagePath` | src/sales/pages/EditStore.jsx:222-225 | a draft holding a stored image path sends that path as a text field |
| `FormPayload.CreateBodyMembers` | src/sales/pages/AddStore.jsx:90-93 | a field is in the create body exactly when the draft has that key with that value, with no exception for `image` |
| `Interaction.FailureNotice` | src/sales/pages/EditStore.jsx:258-262 | the failure message `Error: ${error.message}`, with the text `FailureText` gives |
| `Interaction.FailureText` | src/sales/pages/AddStore.jsx:107-118 | a rejection shows its body's `message` when present and non-empty, and the fallback otherwise; an exception shows its own message |
| `EditStore.NameError` | src/sales/pages/EditStore.jsx:123-125 | the name rule: blank text gives "Nama toko wajib diisi" |
| `EditStore.AddressError` | src/sales/pages/EditStore.jsx:127-129 | the address rule: blank text gives "Alamat wajib diisi" |
| `EditStore.NumError` | src/sales/pages/EditStore.jsx:131-135 | the num rule: blank text gives the "wajib diisi" message, and otherwise text that is not 10 to 13 digits as typed gives the "tidak valid" message |
| `EditStore.FormErrors` | src/sales/pages/EditStore.jsx:121-135 | the error object the three rules give; `FormErrorsEmptyIff` states when it is empty |
| `EditStore.Collect` | src/sales/pages/EditStore.jsx:121-135 | the error object has an entry for a field exactly when that field's rule fails, holding that rule's message, and no other keys |
| `EditStore.CollectEmpty` | src/sales/pages/EditStore.jsx:137-138 | the error object is empty exactly when all three rules pass |
| `EditStore.FormErrorsEmptyIff` | src/sales/pages/EditStore.jsx:120-139 | a draft validates exactly when name and address are not blank and num, as typed, is 10 to 13 digits |
| `EditStore.OnlyNumberInvalid` | src/sales/pages/EditStore.jsx:131-135 | with name and address filled and a non-blank num that is not 10 to 13 digits, num is the only field in error, with the "tidak valid" message |
| `EditStore.PaddedNumberIsInvalid` | src/sales/pages/EditStore.jsx:131-135 | a non-blank number with leading white space gets the "tidak valid" message: the pattern sees the untrimmed text |
| `EditStore.CheckFields` | src/sales/pages/EditStore.jsx:120-136 | the successive checks build exactly the error object of the three rules, with all violations reported |
| `EditStore.TrimsToEmpty` | src/sales/pages/EditStore.jsx:124 | `!s.trim()` holds exactly when `s` is blank, which `TrimResult` gives |
| `EditStore.LocThrows` | src/sales/pages/EditStore.jsx:81 | `loc?.match` throws exactly when `loc` is present and is neither a string nor nullish |
| `EditStore.StoreData` | src/sales/pages/EditStore.jsx:89 | the draft taken from a record lacks `id` and `products` and keeps every other field of the record |
| `EditStore.BlankDraft` | src/sales/pages/EditStore.jsx:49-55 | the draft the edit form starts with: empty name, address, num and loc, a null image, in that key order |
| `EditStore.EditStoreForm.constructor` | src/sales/pages/EditStore.jsx:46-72 | after the first render: the blank draft with `loc` showing the fallback point, no errors, not loading, initial loading on, and the GET of the store sent |
| `EditStore.EditStoreForm.MarkerEffect` | src/sales/pages/EditStore.jsx:113-118 | `loc` becomes the formatted marker and no other draft field changes |
| `EditStore.EditStoreForm.Settle` | src/sales/pages/EditStore.jsx:113-118 | a pending marker effect runs, and afterwards `loc` shows the marker; with none pending the draft is unchanged |
| `EditStore.EditStoreForm.PlaceMarker` | src/sales/pages/EditStore.jsx:28-31 | a map click moves only the marker, and the marker effect becomes due |
| `EditStore.EditStoreForm.ClickMap` | src/sales/pages/EditStore.jsx:28-31 | after a click and its effect, the marker is at the clicked point and only `loc` changed in the draft, to that point's text |
| `EditStore.EditStoreForm.Hydrate` | src/sales/pages/EditStore.jsx:63-108 | a fetched record becomes the draft, minus `id` and `products`, and a parsed `loc` moves centre and marker; a failed fetch, or a `loc` that makes `.match` throw, shows the error modal and keeps draft and marker; loading ends either way |
| `EditStore.EditStoreForm.Adopt` | src/sales/pages/EditStore.jsx:81-90 | the draft becomes the record minus `id` and `products`; centre and marker move to the stored point when there is one and stay put otherwise |
| `EditStore.EditStoreForm.FollowPoint` | src/sales/pages/EditStore.jsx:82-86 | a parsed point becomes both centre and marker; without one, nothing moves |
| `EditStore.EditStoreForm.Load` | src/sales/pages/EditStore.jsx:62-118 | after hydration and the marker effect, a stored point is written back into `loc` in the canonical format; a `loc` without a point is kept as stored while the marker stays put; a failure keeps draft and marker |
| `EditStore.EditStoreForm.HandleChange` | src/sales/pages/EditStore.jsx:141-170 | a non-file input sets exactly its field to its value; a file input sets `image` when a file was picked and changes nothing otherwise; the key order is kept, with a new key appended at the end; either way that name's error becomes `""` and every other error entry is unchanged |
| `EditStore.EditStoreForm.ApplyLocation` | src/sales/pages/EditStore.jsx:172-203 | a fix moves centre and marker to it and writes its text into `loc`; an error or a missing API shows its modal and changes nothing else |
| `EditStore.EditStoreForm.Locate` | src/sales/pages/EditStore.jsx:172-203 | after a fix and the effect it triggers, `loc` is the fix's text and shows the marker |
| `EditStore.EditStoreForm.Validate` | src/sales/pages/EditStore.jsx:120-139 | with string fields, `formErrors` is replaced by the rules' error object and the verdict is whether that object is empty; a non-string field makes `trim` throw and nothing changes |
| `EditStore.EditStoreForm.BuildPayload` | src/sales/pages/EditStore.jsx:220-226 | the loop builds exactly the update body of the draft |
| `EditStore.EditStoreForm.BeginSubmit` | src/sales/pages/EditStore.jsx:205-238 | a PUT is sent exactly when validation passes, carrying the update body; a failed validation shows the modal, sends nothing and leaves loading off; the draft is never touched |
| `EditStore.EditStoreForm.FinishSubmit` | src/sales/pages/EditStore.jsx:240-266 | success shows the success modal and schedules the move to `/stores`; failure shows `Error: <message>`; loading ends either way |
| `EditStore.EditStoreForm.Submit` | src/sales/pages/EditStore.jsx:205-267 | a whole attempt sends one request for a valid draft and none otherwise, ends with loading off, and navigates only after success |
| `AddStore.InitialDraft` | src/sales/pages/AddStore.jsx:29-38 | the draft the create form starts with; the lemmas below state its keys and values |
| `AddStore.InitialDraftKeys` | src/sales/pages/AddStore.jsx:29-38 | the starting draft's keys, in order: name, address, num, loc, the three stock counters, image |
| `AddStore.InitialDraftText` | src/sales/pages/AddStore.jsx:30-32 | name, address and num start empty |
| `AddStore.InitialDraftLoc` | src/sales/pages/AddStore.jsx:33-41 | the starting `loc` is the text of the fallback point where centre and marker start |
| `AddStore.InitialDraftCounters` | src/sales/pages/AddStore.jsx:34-37 | the three stock counters start as the number 0 and the image as null |
| `AddStore.InitialDraftSent` | src/sales/pages/AddStore.jsx:88-93 | an untouched draft sends each of its three stock counters as the text "0" and its missing image as the text "null" |
| `AddStore.ChangedValue` | src/sales/pages/AddStore.jsx:43-56 | the `image` input stores `files[0]`, which is `undefined` when no file was picked; any other input stores its text value, with no numeric conversion |
| `AddStore.ChangedFieldSentAsTyped` | src/sales/pages/AddStore.jsx:51-54 | a field changed to typed text is posted as that very text, stock counters included |
| `AddStore.AddStoreForm.constructor` | src/sales/pages/AddStore.jsx:29-63 | after the first render and its marker effect, the draft is the starting draft, centre and marker are the fallback point, `loc` shows the marker, and nothing has been sent or shown |
| `AddStore.AddStoreForm.MarkerEffect` | src/sales/pages/AddStore.jsx:58-63 | `loc` becomes the formatted marker and no other draft field changes |
| `AddStore.AddStoreForm.Settle` | src/sales/pages/AddStore.jsx:58-63 | a pending marker effect runs and afterwards `loc` shows the marker; with none pending the draft is unchanged |
| `AddStore.AddStoreForm.PlaceMarker` | src/sales/pages/AddStore.jsx:18-21 | a map click moves only the marker, and the marker effect becomes due |
| `AddStore.AddStoreForm.ClickMap` | src/sales/pages/AddStore.jsx:18-21 | after a click and its effect, the marker is at the clicked point and only `loc` changed in the draft, to that point's text |
| `AddStore.AddStoreForm.HandleChange` | src/sales/pages/AddStore.jsx:43-56 | exactly the named field changes, to `ChangedValue`; every other field keeps its value and the key order is kept |
| `AddStore.AddStoreForm.ApplyLocation` | src/sales/pages/AddStore.jsx:65-86 | a fix moves centre and marker to it, but writes into `loc` the text of the marker of the render in which the button was pressed; an error or a missing API only adds its alert |
| `AddStore.AddStoreForm.Locate` | src/sales/pages/AddStore.jsx:65-86 | after a fix and the effect it triggers, the stale text is gone: `loc` is the fix's text, as if written directly, and shows the marker |
| `AddStore.AddStoreForm.LocateAcrossClick` | src/sales/pages/AddStore.jsx:58-86 | with a map click between pressing the button and the callback, the stale text written is that of the marker before the click, yet `loc` ends up showing the marker: the fix if there is one, the clicked point otherwise |
| `AddStore.AddStoreForm.BuildPayload` | src/sales/pages/AddStore.jsx:90-93 | the loop builds exactly the create body of the draft, every key in order |
| `AddStore.AddStoreForm.BeginSubmit` | src/sales/pages/AddStore.jsx:88-105 | with no check of any kind, one POST to the store collection goes out, carrying the create body |
| `AddStore.AddStoreForm.FinishSubmit` | src/sales/pages/AddStore.jsx:107-119 | success alerts "Toko berhasil ditambahkan!" and navigates to `/stores`; failure alerts `Error: <message>` and stays |
| `AddStore.AddStoreForm.Submit` | src/sales/pages/AddStore.jsx:88-120 | a whole attempt sends exactly one request with the draft as it was, keeps the draft whatever the outcome, shows one alert, and navigates only after success |

## Left out

- Number conversion: `parseFloat` on the captured coordinates, and JavaScript's number-to-text conversion, are not modelled. A coordinate stays the text it was written as, so a stored `"(-6.20, 106.8)"` is written back as `"(-6.20, 106.8)"`, while the code would write `"(-6.2, 106.8)"`.
- The image preview (`FileReader`, and the preview URL built from the stored path) is not modelled. It is browser I/O and does not affect the draft.
- Leaflet is not modelled: map rendering, `setView`, the icon set-up and the registration of the click listener are foreign library calls. A click is the `PlaceMarker` step.
- The network is not modelled. `fetch`, the API URL helpers, the JWT from `localStorage` and JSON decoding are outside the model. Each request is recorded, and its outcome is a parameter: a record or a failure for the GET, and accepted, rejected with an optional message, or thrown for the POST and PUT.
- A GET whose `data.data` is not a plain object is modelled as a failed fetch. The code fails that way only for `null` or `undefined`, whose property reads throw into the `catch`. A string, number, boolean or array passes: `loc?.match` finds nothing and the rest pattern installs an object of its index keys (or of no keys) as the draft, with no modal. The model has no such record.
- Presentation is not modelled: the modal's type and `autoClose` fields, the `showModal` flag and the three-second timer before navigating. The edit form records the scheduled route in `navigation`.
- Browser form validation (`required`, `min`) runs before `onSubmit` and is not modelled. The model's submit handlers can be called with any draft.
- Objects.Value: a number is an unbounded integer, not a double. Integers of magnitude 1e21 or more, which JavaScript writes in exponent form (`1e+21`), and the loss of precision above 2^53 are not modelled. The forms only ever hold small counters.
- Objects.Set: `Object.keys` lists integer-like keys first, in numeric order. The model keeps plain insertion order, which is the order for every key these forms use.
- AddStore.AddStoreForm.HandleChange: an input named `image` that is not a file input (its `files` is undefined, so the code throws) is not modelled. The form's only `image` input is a file input.
- Console logging, and React's scheduling of renders and effects, are not modelled. Effects are explicit steps; a state setter given a fresh array always makes its effect due.
- Concurrency is not modelled: overlapping submits and late updates after unmounting.
- src/admin/pages/ReturnManagement.jsx is not part of this model. It renders constant tables and computes nothing.
