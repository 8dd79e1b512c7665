# User list editor — a Dafny model

This project models the user-management screen of a small Angular
application: the `UserComponent` that holds the list of users on screen, the
add/edit form draft (`newUser`), the user being edited (`editingUser`) and the
edit-mode flag (`isEditMode`). It covers the changes the component makes to
those four fields after each round trip to the REST service. It also covers
the two decorative palette lookups used when rendering user cards.

- `wrappers.dfy` (module `Wrappers`): `Option`, for optional fields, and
  `Outcome`, for what an awaited service promise settles to (resolved with a
  value, or rejected).
- `user_service.dfy` (module `Service`): the `User` record, where `id` is an
  `Option<int>`. `HasId` is JavaScript truthiness of `user.id`, so an absent
  id and the id `0` both count as "no id". `Call` lists the requests that
  `addUser` and `deleteUser` can send to the service; the `getUsers()`
  request of `ngOnInit` has no case there, because it is implicit.
- `user_component.dfy` (module `Component`):
  - the `findIndex` and `filter` calls on the list, written as functions
    with lemmas;
  - the palettes;
  - class `UserComponent`, whose methods update the four fields;
  - client methods that derive two of the test suite's scenarios, and the
    idempotence of `cancelEdit`, from the contracts alone.

`AddUser` and `DeleteUser` take the outcome of their awaited service call
as an `Outcome` parameter, and return the request they sent as a `Call` (`NoCall` when they sent none), so "the service is not
called" is part of their contracts. The `confirm(...)` answer is a `bool`
parameter of `DeleteUser`, which also returns the prompt text it showed, if any. `NgOnInit` takes the list that `getUsers()` resolved to; its
request is implicit. `EditUser`, `CancelEdit` and `ResetForm` send no request
and take no service outcome.

Notes on the component's behaviour:

- Submitting in edit mode takes the update path only when the editing user's
  id is truthy. With an absent or zero id, the draft is created as a new user
  and edit mode stays on (`AddUser`'s create-path contract).
- Deletion treats an id of `0` like a missing id.
- `ngOnInit` has no error handling.
- The invariant "edit mode iff a user is being edited" is not enforced by the
  component, whose fields are public, so the model states it as `Valid()`:
  the constructor establishes it, `EditUser` and `CancelEdit` establish it,
  and every other operation preserves it.

## Model

| member | source | states |
|---|---|---|
| `Component.FindIndex` | src/app/components/user/user.component.ts:27 | the result is -1 exactly when no user has the id, and otherwise the first position holding it |
| `Component.WithoutId` | src/app/components/user/user.component.ts:58 | a user is kept exactly when it was in the list and its id differs from the deleted id; the list never grows |
| `Component.WithoutIdAppend` | src/app/components/user/user.component.ts:58 | filtering distributes over concatenation, so survivors keep their relative order |
| `Component.WithoutIdLength` | src/app/components/user/user.component.ts:58 | the length drops by exactly the number of users carrying the deleted id |
| `Component.WithoutIdNoMatch` | src/app/components/user/user.component.ts:58 | a list with no user of that id is returned unchanged |
| `Component.WithoutIdIdempotent` | src/app/components/user/user.component.ts:58 | deleting the same id twice leaves the list as deleting it once does |
| `Component.CardGradient` | src/app/components/user/user.component.ts:75-85 | every index is mapped to one of the fixed gradient entries |
| `Component.AvatarIcon` | src/app/components/user/user.component.ts:87-90 | every index is mapped to one of the fixed icon entries |
| `Component.PalettesDistinct` | src/app/components/user/user.component.ts:76-88 | each palette has exactly six pairwise distinct entries |
| `Component.CardGradientPeriod` | src/app/components/user/user.component.ts:84 | two indices share a gradient exactly when they are congruent modulo 6 |
| `Component.AvatarIconPeriod` | src/app/components/user/user.component.ts:89 | two indices share an icon exactly when they are congruent modulo 6 |
| `Component.PalettesCycle` | src/app/components/user/user.component.ts:84-89 | shifting an index by any multiple of 6 keeps its gradient and icon |
| `Component.FirstTwoDiffer` | src/app/components/user/user.component.spec.ts:221-247 | cards 0 and 1 get different gradients and different icons |
| `Service.HasId` | src/app/components/user/user.component.ts:51 | definition: the JavaScript truthiness of `user.id` (here and in `editingUser?.id` at line 24), so an absent id and the id 0 both count as no id |
| `Component.Incomplete` | src/app/components/user/user.component.ts:21 | definition: the guard `!name \|\| !email`, true when the draft's name or email is the empty string |
| `Component.UserComponent.Updating` | src/app/components/user/user.component.ts:24 | definition: the update-path condition, edit mode on with an edited user whose id is truthy |
| `Component.ConfirmMessage` | src/app/components/user/user.component.ts:53 | definition: the prompt "Are you sure you want to delete NAME?" |
| `Component.ConfirmMessageInjective` | src/app/components/user/user.component.ts:53 | two prompts are equal only when they contain the same name string (users that share a name get the same prompt) |
| `Component.UserComponent.constructor` | src/app/components/user/user.component.ts:9-12 | starts with an empty list, an empty draft, no edited user and edit mode off, which satisfies the mode invariant |
| `Component.UserComponent.NgOnInit` | src/app/components/user/user.component.ts:16-18 | the loaded list replaces `users` wholesale; the other fields are unchanged |
| `Component.UserComponent.AddUser` | src/app/components/user/user.component.ts:20-42 | an incomplete draft sends nothing and changes nothing. A rejected call changes nothing. On the update path it sends `Update(editing id, draft)`, replaces the first user with that id by the answer (the list stays as it is when none matches, and its length never changes), then leaves edit mode with an empty draft. On the create path it sends `Create(draft)`, appends the answer, clears the draft and keeps the edit fields. The mode invariant is preserved |
| `Component.UserComponent.EditUser` | src/app/components/user/user.component.ts:44-48 | the edited user is a copy of the argument, the draft is its name and email without id, edit mode is on, and the list is untouched |
| `Component.UserComponent.DeleteUser` | src/app/components/user/user.component.ts:50-63 | with no truthy id, no prompt is shown, nothing is sent and nothing changes. Otherwise the prompt "Are you sure you want to delete NAME?" is shown. Declining sends nothing and changes nothing. Confirming sends `Remove(id)`, and on success the list becomes the users whose id differs. The edit fields are never touched |
| `Component.UserComponent.CancelEdit` | src/app/components/user/user.component.ts:65-69 | edit mode is off, no user is edited, the draft is empty, and the list is unchanged |
| `Component.UserComponent.ResetForm` | src/app/components/user/user.component.ts:71-73 | the draft is empty and nothing else changes |
| `Component.CancelEditIdempotent` | src/app/components/user/user.component.ts:65-69 | on a component already out of edit mode with an empty draft, one more `cancelEdit` leaves all four fields as they were |
| `Component.DataConsistencyScenario` | src/app/components/user/user.component.spec.ts:449-490 | load users 1 and 2, create user 3, edit user 2 and submit: only the second entry is replaced, the others keep their place, and edit mode is off; deleting user 2 then leaves users 1 and 3 in order |
| `Component.DeleteWhileEditingScenario` | src/app/components/user/user.component.spec.ts:504-522 | deleting another user while one is being edited removes it and keeps the edit session |

## Left out

- The HTTP service (`user.service.ts`) apart from its `User` record. `AddUser` and `DeleteUser` take the answer to their request as an `Outcome` parameter and return the request as a `Call`. `NgOnInit` takes the list that `getUsers()` resolved to, and its request is implicit.
- async/await scheduling and interleaved in-flight operations: each operation is atomic. Across an `await`, a concurrent change to `editingUser` or `users` is not modelled.
- `window.confirm` is a boolean parameter. `console.error` logging (for save and delete failures) is not modelled.
- NgOnInit: only the success path is modelled. A rejected `getUsers()` is not, because the source does not catch it. Null or undefined payloads are not modelled either.
- Aliasing of the users array: in the model `users` is a value sequence. In the source, `this.users = await getUsers()` (line 17) keeps the array the service returned, and both `this.users[index] = updated` (line 29) and `this.users.push(created)` (line 35) then write into that array in place, so the changes are visible through every other reference to it. Only the `filter` at line 58 builds a new array.
- Negative or fractional palette indices: most yield `undefined` in JavaScript, but a negative multiple of 6 gives `-0`, which indexes the first entry; the palette functions take a `nat`.
- The Angular decorators, dependency injection and the HTML template.
