# codemind backend core, in Dafny

This project models the sequential logic of the codemind backend (`server.js`),
an Express server that turns a code snippet and a task tag into a prompt for a
language model, keeps a small in-memory items table, and signs users up and in
against a flat user list. The network, the model call, the file system and the
hashing library are abstracted away. What remains are three pieces. Each is
modelled in the form the server code has.

- `CodeHelper` (code_helper.dfy) covers the `/api/code-helper` dispatcher.
  It is a pure function, `BuildPrompt`. The function rejects a request that
  lacks `code` or `taskType`, then rejects an unknown tag. Otherwise it fills
  one of four fixed templates (explain, fix, convert, document). Body fields
  are `Option<string>`, where `None` stands for `undefined`. JavaScript's
  `language || ""` and `extra || "None"` become `Or`. The text of each
  template is in `Template`, one literal per source line, split around the
  code. `ExtractCode` reads the code back out of a prompt. It is the inverse
  partner of `BuildPrompt`.
- `Items` (items.dfy) covers the `/api/items` table. `ItemStore` is a class
  holding `items: seq<Item>` and `nextId`. Its methods change both fields in
  place, as `push`, indexed assignment, `splice` and `nextId++` do. `Valid()`
  is the table invariant: ids are distinct and all below `nextId`. Every
  method keeps it. Body values are a small `Json` datatype, because the
  handlers tell apart `!name` (falsy), `??` (only `null` and `undefined`) and
  `typeof completed === "boolean"`.
- `Users` (users.dfy) covers `/auth/signup` and `/auth/login`. `UserStore`
  holds `users: seq<User>`. `Signup` appends after a duplicate-email check.
  `Login` only reads the list, and it is proved against the function
  `LoginResult`. `bcrypt.hash` is a parameter `hash: string -> string`.
  `bcrypt.compare` is a parameter `matches: (string, string) -> bool`. The
  `Date.now()` id is a parameter too.
- `Search` (search.dfy) models `findIndex`/`find`. `FindIndex` is the
  specification: the first match, or -1. `Scan` is the front-to-back loop
  proved against it. `Results` holds `Option` and `Result`.

A missing `code` and a missing `taskType` get the same message, which names
both fields and does not say which one is absent (server.js:149-153), and the
prompt is a single string.

## Model

| member | source | states |
|---|---|---|
| Search.FindIndex | server.js:118 | the result is -1 exactly when no element matches; otherwise it is an index whose element matches and no earlier element does (first match) |
| Search.Scan | server.js:118 | the front-to-back scan returns exactly the first-match index that `findIndex` promises |
| Search.FindIndexAppend | server.js:41-48 | after appending an element, an earlier match is still the answer; the new element is found only when nothing before it matched |
| CodeHelper.ParseTask | server.js:158-198 | only the four tags explain, fix, convert and document are recognised, by strict equality; every other string is unknown (no fall-through) |
| CodeHelper.Or | server.js:160-176 | `f || fallback` is the field when truthy and the fallback otherwise, so it is never empty when the fallback is not (`extra || "None"`) |
| CodeHelper.TemplateLabels | server.js:159-192 | each template puts the language label verbatim at a fixed offset of its first line (and the target label right after " to " in convert, `extra` after "Extra: " in explain); the other three end with a single newline after the code. `ExplainLabels`, `FixLabels`, `ConvertLanguageLabel`, `ConvertTargetLabel` and `DocumentLabels` are its proof steps |
| CodeHelper.BuildPrompt | server.js:149-198 | fails with the missing-fields error exactly when `code` or `taskType` is absent or empty (checked before the tag); fails with the invalid-task error exactly when both are present and the tag is unknown; otherwise the prompt contains `code` verbatim and is longer than it |
| CodeHelper.ExtractInvertsBuild | server.js:158-192 | for every tag and non-empty code, the request succeeds and the code is recovered exactly from the prompt between the template's fixed text |
| CodeHelper.BuildInvertsExtract | server.js:158-192 | a prompt with a template's fixed text around non-empty code is exactly what the matching request builds |
| CodeHelper.PromptDeterminesCode | server.js:158-192 | two requests with the same tag and labels give the same prompt only if their code is identical (nothing truncated or rewritten) |
| CodeHelper.AbsentIsEmpty | server.js:149-176 | JavaScript truthiness of a string field (`Truthy`): an absent field and an empty one give the same answer, for each of the five fields; both count as missing for `code` and `taskType` |
| CodeHelper.ExtraOnlyInExplain | server.js:158-192 | for any tag other than explain, the answer does not depend on `extra` |
| CodeHelper.ExtraDefaultsToNone | server.js:158-166 | an explain request without `extra` succeeds and its prompt ends with "Extra: None" |
| CodeHelper.TargetOnlyInConvert | server.js:158-192 | for any tag other than convert, the answer does not depend on `targetLanguage` |
| CodeHelper.ConvertHead | server.js:175-176 | with an empty target, the convert template opens with "Convert this code from <language> to ." |
| CodeHelper.ConvertWithoutTarget | server.js:174-180 | for every language, convert succeeds without `targetLanguage` and the prompt opens with "Convert this code from <language> to ." (an empty target label) |
| CodeHelper.FixScenario | server.js:167-173 | a Python fix request yields exactly the fix template with "python" and the snippet filled in |
| CodeHelper.ConvertScenario | server.js:174-180 | a Python-to-Go request yields exactly "Convert this code from python to go." followed by the fixed lines and the snippet |
| CodeHelper.UnknownTagScenario | server.js:149-198 | "refactor" with code is an invalid task; "refactor" with empty code is reported as missing fields |
| Items.SeedInvariant | server.js:94-98 | the starting table (ids 1 and 2, next id 3) satisfies the id invariant |
| Items.AppendKeepsInvariant | server.js:104-111 | appending a record whose id is the counter keeps ids distinct and below the incremented counter, and that id was not in the table |
| Items.PatchKeepsInvariant | server.js:121-125 | overwriting one record with its patched version keeps the id invariant |
| Items.RemoveKeepsInvariant | server.js:136-137 | removing one record keeps the invariant, and with unique ids no remaining record has the removed id |
| Items.RemoveAtKeepsOrder | server.js:137 | the splice leaves a list one shorter, the records before the removed one at their places and those after it shifted down by one, and loses exactly the removed record (multiset) |
| Items.Falsy | server.js:106 | `undefined` and `null` are falsy, and an array is never falsy |
| Items.Coalesce | server.js:108 | `??` falls back exactly for `undefined` and `null`; a truthy value is kept, and so is `false` |
| Items.Patch | server.js:121-125 | the patched record keeps its id; the name is replaced by any non-nullish value and kept otherwise; `completed` is replaced by a boolean and kept otherwise |
| Items.DeleteUndoesCreate | server.js:104-139 | deleting the id that create just handed out finds it at the end and restores the table as it was |
| Items.PatchLaws | server.js:121-125 | an empty patch changes nothing; a patch applied twice equals it applied once; an empty-string name replaces the old one; a non-boolean `completed` is ignored |
| Items.ItemStore.constructor | server.js:94-98 | the table starts as the two seed records with next id 3, invariant established |
| Items.ItemStore.List | server.js:100-102 | the count is the number of records and the data is the table itself, in order |
| Items.ItemStore.IndexOf | server.js:118 | the index of the first record with the id, or -1 exactly when no record has it |
| Items.ItemStore.Create | server.js:104-112 | a falsy name fails with "Name required" and changes nothing; otherwise exactly one record is appended with the old counter as a fresh id, the name as sent and `completed ?? false`, and the counter grows by one; invariant kept |
| Items.ItemStore.Update | server.js:114-128 | an unknown id fails with "Item not found" and changes nothing; otherwise only the matching record is replaced by its patch (id and position kept, `name` replaced unless null or absent, `completed` replaced only by a boolean); length, counter and every other record unchanged; invariant kept |
| Items.ItemStore.Delete | server.js:130-140 | an unknown id fails with "Item not found" and changes nothing; otherwise the matching record is returned and cut out, the rest keep their order, the length drops by one and the id is no longer present; invariant kept |
| Users.LoginResult | server.js:55-73 | "Invalid email!" exactly when no user has the email; otherwise, for the FIRST user with that email, it succeeds exactly when the password matches that user's stored hash and then returns that user's profile, and fails with "Incorrect password!" otherwise |
| Users.AppendKeepsEmailsUnique | server.js:41-48 | appending a user whose email is not taken keeps emails unique |
| Users.LoginAfterSignup | server.js:38-73 | after a successful signup, logging in with the same email and a password the hash matches returns the new account's profile |
| Users.SignupLeavesOtherLogins | server.js:38-73 | a signup does not change the outcome of a login with any other email |
| Users.UserStore.constructor | server.js:19-23 | the list starts as whatever was loaded, unconstrained |
| Users.UserStore.IndexOfEmail | server.js:41 | the index of the first user with the email, or -1 exactly when the email is not registered |
| Users.UserStore.EmailTaken | server.js:41 | the duplicate check answers true exactly when a user already has the email |
| Users.UserStore.Append | server.js:48 | the push adds exactly the given record at the end |
| Users.UserStore.Signup | server.js:38-53 | run with nothing in between its check and its push: a registered email fails with "Email already exists!" and leaves the list unchanged; otherwise exactly the record with the id, name, email and hash of the password is appended; email uniqueness is preserved |
| Users.OverlappingSignups | server.js:38-52 | two signups for the same new email that both pass the check before either pushes both succeed, and the list then holds the email twice |
| Users.UserStore.Login | server.js:55-73 | the answer is `LoginResult` of the current list (first user with the email, never the password field); the list is not modified |

## Left out

- The Gemini call and the extraction of its response text (server.js:78, 200-221) are left out. They are a foreign network API, and the model ends at the prompt.
- The 500 reply on a provider error is left out with them.
- Password hashing and comparison are parameters of `Signup` and `Login`. Nothing is assumed about them except where a lemma states it as a precondition.
- A signup without a password field is left out. There bcrypt would throw, and the password is modelled as a string.
- Users.LoginResult: a login with an absent or non-string password, or against a loaded user whose stored password is not a string, is left out. There `bcrypt.compare` rejects instead of answering "Incorrect password!"; the model's passwords and hashes are strings.
- A JSON `null` email or name in the auth body is left out. `Option<string>` has only `undefined`, and `null === undefined` is false at server.js:41 and 58.
- Non-string JSON (numbers, booleans, arrays) as the email, name or password of the auth body is left out.
- Users.UserStore.Signup: email uniqueness is proved only for signups that do not overlap. The handler waits for `bcrypt.hash` between its check and its push, so overlapping signups can register one email twice (see Findings and `OverlappingSignups`). Overlapping logins only read the list and are unaffected.
- Loading and rewriting `users.json` (server.js:21-23, 50) is file I/O. The constructor takes the loaded list as it is.
- `Date.now()` is a parameter of `Signup`. The model claims no uniqueness for user ids.
- Express setup, CORS, static files, the health check, the 404 and global error handlers, and `app.listen` are left out. They are HTTP plumbing. Each handler's outcome is modelled, with the error messages, the signup success message and the HTTP status of the item and dispatcher errors.
- The other success replies are left out: login's "Login successful!" (server.js:70), delete's "Deleted" (server.js:139) and create's 201 status (server.js:111). They are constants that do not depend on the request; the model returns the profile or item they carry.
- `parseInt` of the route id is left out. The id is taken as already parsed. A NaN id never matches, so it behaves like any id that is not in the table.
- Non-string JSON in the code-helper body is left out. JavaScript would stringify it into the prompt.
- Fractional numbers, NaN and objects in the items body are left out. The `Json` datatype has null, booleans, integers, strings and arrays.
- Interleavings of requests other than the overlapping signups are left out. The item handlers have no `await` and run to completion one at a time, which the sequential methods reflect.
- Items.ItemStore.Create: the id counter is an unbounded integer. In JavaScript it is a double, and from 2^53 on `nextId++` stops growing, so ids would repeat. That takes about 9·10^15 creates and is not modelled.
- The browser UI (public/script.js) is not part of this model.

## Findings

| source | as written | input that shows it | evidently intended | confidence | as-written member | corrected member |
|---|---|---|---|---|---|---|
| server.js:41-48 | the duplicate-email check (line 41) and the push (line 48) are separated by `await bcrypt.hash` (line 45), so another signup can pass the same check before the first one pushes | two signup requests for the same email not yet registered, the second arriving while the first is hashing | an email is registered at most once, which is what the check at line 41 is for | not executed; follows from the await between check and push | Users.OverlappingSignups | Users.UserStore.Signup |
