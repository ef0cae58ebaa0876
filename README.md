# User records form: a Dafny model

This project models the record-management logic of the single `App` component of a
React form (`src/App.tsx`). The component keeps five pieces of state:

- the ordered list of `{id, name, phone}` records;
- the candidate name and phone being typed;
- the id of the record being edited, or none while a new record is being composed;
- the message of the last failed submit.

It has three handlers:

- delete filters the list by id;
- edit copies a record into the candidate fields;
- submit runs the yup schema over the candidate `name` and `phone`. On success it
  either updates the edited record or appends a record with id `length + 1`, then
  resets the candidates. On failure it records the error message.

Files:

- `wrappers.dfy`: `Option`, standing for the source's `T | null`.
- `records.dfy` (module `Records`): the record type and the three list expressions
  (filter, map, append) as functions, with lemmas on order, ids and the known quirks.
- `validation.dfy` (module `Validation`): the schema's `name`/`phone` rules as a
  rule-by-rule check proved equal to a single predicate. It also holds the settlement
  of the awaited validation call and the `catch` block's choice of message.
- `app.dfy` (module `App`): class `UserForm`. Its five fields are the component's state
  and its methods are the handlers. `Valid()` is the invariant that all ids are at
  least 1 and that every stored record passed the gate. Three client methods compose
  the handlers the way a user would.

The source tests `if (editId)` by truthiness. The model keeps that test (`App.Truthy`)
and proves that under the invariant it means "an edit id is present". `OnSubmit` states
its contract in terms of presence.

Two behaviours of the code are worth stating:

- Ids are assigned as `data.length + 1`. They are neither unique nor never reused.
  `Records.IdsCanCollide` exhibits a collision, and nothing in the model claims uniqueness.
- Deleting the record being edited leaves the edit id in place (`App.UserForm.OnDelete` keeps `editId`; `App.EditThenDelete` and `App.EditDeleteThenSubmit` show the consequence).

## Model

| member | source | states |
|---|---|---|
| `Records.WithoutId` | src/App.tsx:26 | the filtered list holds exactly the records whose id differs from the deleted id; its length drops by the number of records carrying that id; with no such record the list is returned unchanged |
| `Records.WithoutIdConcat` | src/App.tsx:26 | deleting keeps relative order: filtering a concatenation is the concatenation of the filtered parts |
| `Records.CountIdZero` | src/App.tsx:26 | no record is removed exactly when no record carries the id |
| `Records.UpdatedWhere` | src/App.tsx:44 | the mapped list has the same length; every record with the edited id gets the candidate name and phone and keeps its id and position; every other record is identical |
| `Records.Appended` | src/App.tsx:50-55 | the new list is the old records, unchanged and in place, followed by exactly one record with id `length + 1` and the candidate name and phone |
| `Records.UpdateMissingIsNoOp` | src/App.tsx:44 | an update whose id matches no record leaves the list unchanged |
| `Records.NextId` | src/App.tsx:51 | the id given to a new record is at least 1 |
| `Records.IdsStayPositive` | src/App.tsx:25-55 | delete, update and append all keep every id at least 1 |
| `Records.ResubmitOwnFields` | src/App.tsx:30-48 | editing a record and submitting its own name and phone keeps the length and that record; with unique ids the whole list is unchanged |
| `Records.DenseNextIdFresh` | src/App.tsx:50-55 | while the ids are 1..n in order, the next id is fresh and appending keeps ids 1..n+1 and unique |
| `Records.IdsCanCollide` | src/App.tsx:25-55 | with records 1 and 2, deleting 1 and then appending gives two records with id 2, so ids are not unique |
| `Records.DeleteEditedDangles` | src/App.tsx:25-48 | after deleting the edited id no record carries it, and a later update under that id changes nothing |
| `Validation.Validate` | src/App.tsx:11-13 | no violation exactly when the name has at least 3 characters and the phone is present and positive; each reported violation is a rule the candidate breaks; in the model's own order, a short name is reported as a name violation before any phone rule |
| `Validation.Message` | src/App.tsx:60-62 | every validation message is non-empty and starts with the field it is about |
| `Validation.Gate` | src/App.tsx:38-41 | the awaited validation resolves exactly when the candidate is acceptable, and otherwise rejects with an `Error` whose message is non-empty |
| `Validation.GateRejectionHasMessage` | src/App.tsx:60-65 | a rejected candidate always leaves a non-empty error message, which is the validation message and not the unknown-error text |
| `Validation.CaughtMessage` | src/App.tsx:60-65 | an `Error` rejection shows its own message; any other rejected value shows the fixed, non-empty unknown-error text |
| `App.Truthy` | src/App.tsx:43 | the edit id is truthy only when present, and an id of 0 is falsy |
| `App.TruthyIsPresence` | src/App.tsx:43 | when ids are at least 1, the truthiness test on the edit id is the same as its presence |
| `App.AcceptedStayAccepted` | src/App.tsx:25-59 | delete, update and append with an accepted candidate keep every stored record acceptable to the gate |
| `App.UserForm.constructor` | src/App.tsx:19-23 | the initial state has no records, empty candidates, no edit id and no error |
| `App.UserForm.OnNameInput` | src/App.tsx:74 | typing a name sets only the candidate name; the error is kept |
| `App.UserForm.OnPhoneInput` | src/App.tsx:76 | typing a phone sets only the candidate phone; the error is kept |
| `App.UserForm.OnDelete` | src/App.tsx:25-28 | the store becomes the filtered list, the other four fields are unchanged, and ids stay at least 1 |
| `App.UserForm.OnEdit` | src/App.tsx:30-34 | the edit id, name and phone become the record's; the store and the error are unchanged |
| `App.UserForm.OnSubmit` | src/App.tsx:36-67 | a rejected candidate changes only the error, which becomes non-empty. An accepted one either updates every record with the edit id or appends one record with id `length + 1` after the unchanged old records. It then empties the candidates, clears the edit id and clears the error. Ids stay at least 1 |
| `App.EditThenResubmit` | src/App.tsx:30-59 | editing a stored record and submitting it unchanged passes the gate, keeps the length and that record, and resets the form with no error; with unique ids the store is unchanged |
| `App.EditThenDelete` | src/App.tsx:25-34 | editing a record and then deleting its id leaves the form editing an id that no record carries, with the record's fields still in the candidates |
| `App.EditDeleteThenSubmit` | src/App.tsx:25-59 | a submit after the edited record was deleted is accepted, updates nothing, and resets the form with no error |

## Left out

- Rendering, labels and the input widgets (`src/App.tsx:69-89`) are UI. Typing is modelled only as the two setters `OnNameInput` and `OnPhoneInput`.
- `parseInt` coercion of the phone field and its `NaN` result are left out. The candidate phone is an optional integer, so yup's `integer()` rule and its type check always hold in the model.
- `Validation.Validate`: which violated rule yup reports first is not modelled. The model reports name before phone; with a short name and no phone yup may report the phone rule instead.
- yup itself is a library outside this model. The rules are the predicate `Validation.Acceptable`. The messages use yup's default wording. Only "the message is non-empty" is claimed about the wording.
- Name length is counted in characters of a Dafny string, not in JavaScript's UTF-16 code units.
- The `email`, `website` and `createdOn` schema fields are never supplied by the component, so they always pass. `createdOn`'s default reads the clock.
- The `async` submit, React's batched state updates and a second submit over a stale list are left out. Each handler is one atomic transition.
- `App.UserForm.OnEdit`: requires the record to be in the store, because the component only offers the edit action on displayed records (`src/App.tsx:79-84`).
- The rejection branch for non-`Error` values (`src/App.tsx:63-64`) is modelled in `Validation.CaughtMessage`. The gate never produces such a value, because yup rejects with a `ValidationError`.
