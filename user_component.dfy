/**
 * The user list editor: the list of users shown on screen, the add/edit
 * form draft, and the edit mode, with the operations that change them after
 * each service round trip.  `AddUser` and `DeleteUser` take the outcome of
 * their awaited service call as an `Outcome` parameter and return the
 * request they sent, so that "the service is not called" is part of their
 * contracts; `NgOnInit` takes the list `getUsers()` resolved to.
 */
module Component {
  import opened Wrappers
  import opened Service

  // ---------------------------------------------------------------------------
  // Searching and filtering the list by id
  // ---------------------------------------------------------------------------

  /** `i` is the first position of `s` holding a user whose id is `id`. */
  predicate FirstWithId(s: seq<User>, id: int, i: int)
  {
    0 <= i < |s| && s[i].id == Some(id) &&
    forall j :: 0 <= j < i ==> s[j].id != Some(id)
  }

  /** No user of `s` has id `id`. */
  predicate NoneWithId(s: seq<User>, id: int)
  {
    forall j :: 0 <= j < |s| ==> s[j].id != Some(id)
  }

  /** `s.findIndex(u => u.id === id)`: the first position holding `id`, or -1. */
  function FindIndex(s: seq<User>, id: int): (r: int)
    ensures -1 <= r < |s|
    ensures r == -1 <==> NoneWithId(s, id)
    ensures r != -1 ==> FirstWithId(s, id, r)
  {
    if s == [] then -1
    else if s[0].id == Some(id) then 0
    else
      var k := FindIndex(s[1..], id);
      if k == -1 then -1 else k + 1
  }

  /** `s.filter(u => u.id !== id)`: the users whose id is not `id`, in order. */
  function WithoutId(s: seq<User>, id: int): (r: seq<User>)
    ensures |r| <= |s|
    ensures forall x :: x in r <==> x in s && x.id != Some(id)
  {
    if s == [] then []
    else if s[0].id != Some(id) then [s[0]] + WithoutId(s[1..], id)
    else WithoutId(s[1..], id)
  }

  /** How many users of `s` have id `id`. */
  function CountWithId(s: seq<User>, id: int): nat
  {
    if s == [] then 0
    else (if s[0].id == Some(id) then 1 else 0) + CountWithId(s[1..], id)
  }

  /**
   * Filtering distributes over concatenation, so the survivors keep their
   * relative order: filtering a list is filtering each part of it.
   */
  lemma {:induction false} WithoutIdAppend(s: seq<User>, t: seq<User>, id: int)
    ensures WithoutId(s + t, id) == WithoutId(s, id) + WithoutId(t, id)
  {
    if s == [] {
      assert s + t == t;
    } else {
      assert (s + t)[1..] == s[1..] + t;
      WithoutIdAppend(s[1..], t, id);
    }
  }

  /** Exactly the users with id `id` are dropped. */
  lemma {:induction false} WithoutIdLength(s: seq<User>, id: int)
    ensures |WithoutId(s, id)| == |s| - CountWithId(s, id)
  {
    if s != [] {
      WithoutIdLength(s[1..], id);
    }
  }

  /** A list with no user of id `id` is left as it is. */
  lemma {:induction false} WithoutIdNoMatch(s: seq<User>, id: int)
    requires NoneWithId(s, id)
    ensures WithoutId(s, id) == s
  {
    if s != [] {
      assert s == [s[0]] + s[1..];
      WithoutIdNoMatch(s[1..], id);
    }
  }

  /** Filtering twice by the same id is filtering once. */
  lemma WithoutIdIdempotent(s: seq<User>, id: int)
    ensures WithoutId(WithoutId(s, id), id) == WithoutId(s, id)
  {
    var r := WithoutId(s, id);
    forall j | 0 <= j < |r| ensures r[j].id != Some(id) {
      assert r[j] in r;
    }
    WithoutIdNoMatch(r, id);
  }

  // ---------------------------------------------------------------------------
  // The decorative palettes
  // ---------------------------------------------------------------------------

  const Gradients: seq<string> := [
    "bg-gradient-to-br from-rose-100 via-pink-100 to-red-100",
    "bg-gradient-to-br from-blue-100 via-cyan-100 to-teal-100",
    "bg-gradient-to-br from-purple-100 via-violet-100 to-indigo-100",
    "bg-gradient-to-br from-green-100 via-emerald-100 to-lime-100",
    "bg-gradient-to-br from-yellow-100 via-amber-100 to-orange-100",
    "bg-gradient-to-br from-gray-100 via-slate-100 to-zinc-100"
  ]

  const AvatarIcons: seq<string> :=
    ["person", "face", "account_circle", "supervisor_account", "badge", "contact_mail"]

  /** The card background for the `index`-th card, cycling through the palette. */
  function CardGradient(index: nat): (r: string)
    ensures r in Gradients
  {
    Gradients[index % |Gradients|]
  }

  /** The avatar icon for the `index`-th card, cycling through the icons. */
  function AvatarIcon(index: nat): (r: string)
    ensures r in AvatarIcons
  {
    AvatarIcons[index % |AvatarIcons|]
  }

  /** No entry of `s` occurs twice. */
  predicate Distinct(s: seq<string>)
  {
    forall i, j :: 0 <= i < j < |s| ==> s[i] != s[j]
  }

  /** Both palettes have six pairwise distinct entries. */
  lemma PalettesDistinct()
    ensures |Gradients| == 6 && Distinct(Gradients)
    ensures |AvatarIcons| == 6 && Distinct(AvatarIcons)
  {
    forall i, j | 0 <= i < j < 6 ensures Gradients[i] != Gradients[j] {
      assert Gradients[i][23] != Gradients[j][23] || Gradients[i][25] != Gradients[j][25];
    }
    forall i, j | 0 <= i < j < 6 ensures AvatarIcons[i] != AvatarIcons[j] {
      assert |AvatarIcons[i]| != |AvatarIcons[j]|;
    }
  }

  /**
   * Two indices get the same gradient exactly when they are congruent
   * modulo 6: the palette repeats every six cards and never sooner.
   */
  lemma CardGradientPeriod(i: nat, j: nat)
    ensures CardGradient(i) == CardGradient(j) <==> i % 6 == j % 6
  {
    PalettesDistinct();
    if i % 6 != j % 6 {
      if i % 6 < j % 6 {
        assert Gradients[i % 6] != Gradients[j % 6];
      } else {
        assert Gradients[j % 6] != Gradients[i % 6];
      }
    }
  }

  /** Two indices get the same icon exactly when they are congruent modulo 6. */
  lemma AvatarIconPeriod(i: nat, j: nat)
    ensures AvatarIcon(i) == AvatarIcon(j) <==> i % 6 == j % 6
  {
    PalettesDistinct();
    if i % 6 != j % 6 {
      if i % 6 < j % 6 {
        assert AvatarIcons[i % 6] != AvatarIcons[j % 6];
      } else {
        assert AvatarIcons[j % 6] != AvatarIcons[i % 6];
      }
    }
  }

  /** Moving on by any whole number of palettes gives the same gradient and icon. */
  lemma PalettesCycle(i: nat, k: nat)
    ensures CardGradient(i + 6 * k) == CardGradient(i)
    ensures AvatarIcon(i + 6 * k) == AvatarIcon(i)
  {
  }

  /** The first two cards differ in both gradient and icon. */
  lemma FirstTwoDiffer()
    ensures CardGradient(0) != CardGradient(1)
    ensures AvatarIcon(0) != AvatarIcon(1)
  {
    CardGradientPeriod(0, 1);
    AvatarIconPeriod(0, 1);
  }

  // ---------------------------------------------------------------------------
  // The component
  // ---------------------------------------------------------------------------

  /** The text of the confirmation prompt shown before deleting `name`. */
  function ConfirmMessage(name: string): string
  {
    "Are you sure you want to delete " + name + "?"
  }

  /** Equal prompts contain the same name string: different names give different prompts. */
  lemma ConfirmMessageInjective(a: string, b: string)
    requires ConfirmMessage(a) == ConfirmMessage(b)
    ensures a == b
  {
    var m := ConfirmMessage(a);
    assert a == m[32..|m| - 1];
    assert b == ConfirmMessage(b)[32..|ConfirmMessage(b)| - 1];
  }

  /** The form draft `{ name, email }` taken from `u`, without its id. */
  function DraftOf(u: User): User
  {
    User(None, u.name, u.email)
  }

  /** The draft is incomplete: `!name || !email` holds of it. */
  predicate Incomplete(d: User)
  {
    d.name == "" || d.email == ""
  }

  class UserComponent {
    var users: seq<User>
    var newUser: User
    var editingUser: Option<User>
    var isEditMode: bool

    /** Edit mode is on exactly while a user is being edited. */
    ghost predicate Valid()
      reads this
    {
      isEditMode <==> editingUser.Some?
    }

    /** Submitting takes the update path: edit mode with a truthy editing id. */
    predicate Updating()
      reads this
    {
      isEditMode && editingUser.Some? && HasId(editingUser.value)
    }

    constructor ()
      ensures Valid()
      ensures users == [] && newUser == EmptyDraft
      ensures editingUser == None && !isEditMode
    {
      users := [];
      newUser := EmptyDraft;
      editingUser := None;
      isEditMode := false;
    }

    /** `ngOnInit` once `getUsers()` has resolved to `loaded`. */
    method NgOnInit(loaded: seq<User>)
      modifies this
      ensures users == loaded
      ensures newUser == old(newUser) && editingUser == old(editingUser)
      ensures isEditMode == old(isEditMode)
    {
      users := loaded;
    }

    /**
     * `addUser`: submits the draft as an update in edit mode and as a new
     * user otherwise; `response` is what the awaited service call settles to.
     */
    method AddUser(response: Outcome<User>) returns (call: Call)
      modifies this
      ensures old(Valid()) ==> Valid()
      // An incomplete draft is not submitted and changes nothing.
      ensures old(Incomplete(newUser)) ==> call == NoCall && unchanged(this)
      // A failed call changes nothing, whichever path sent it.
      ensures response.Rejected? ==> unchanged(this)
      // The update path.
      ensures !old(Incomplete(newUser)) && old(Updating()) ==>
                call == Update(old(editingUser).value.id.value, old(newUser))
      ensures !old(Incomplete(newUser)) && old(Updating()) && response.Resolved? ==>
                && |users| == |old(users)|
                && (NoneWithId(old(users), call.id) ==> users == old(users))
                && (forall i :: FirstWithId(old(users), call.id, i) ==>
                      users == old(users)[i := response.value])
                && !isEditMode && editingUser == None && newUser == EmptyDraft
      // The create path.
      ensures !old(Incomplete(newUser)) && !old(Updating()) ==> call == Create(old(newUser))
      ensures !old(Incomplete(newUser)) && !old(Updating()) && response.Resolved? ==>
                && users == old(users) + [response.value]
                && newUser == EmptyDraft
                && editingUser == old(editingUser) && isEditMode == old(isEditMode)
    {
      if Incomplete(newUser) {
        return NoCall;
      }
      if Updating() {
        var id := editingUser.value.id.value;
        call := Update(id, newUser);
        if response.Resolved? {
          var index := FindIndex(users, id);
          if index != -1 {
            users := users[index := response.value];
          }
          CancelEdit();
        }
      } else {
        call := Create(newUser);
        if response.Resolved? {
          users := users + [response.value];
          ResetForm();
        }
      }
    }

    /** `editUser(user)`: loads a copy of `user` into the form and enters edit mode. */
    method EditUser(user: User)
      modifies this
      ensures Valid()
      ensures editingUser == Some(user)
      ensures newUser == User(None, user.name, user.email)
      ensures isEditMode
      ensures users == old(users)
    {
      editingUser := Some(user);
      newUser := DraftOf(user);
      isEditMode := true;
    }

    /**
     * `deleteUser(user)`: `confirmed` is the answer to the prompt and
     * `response` what the awaited delete settles to.  Returns the prompt
     * shown, if any, and the request sent.
     */
    method DeleteUser(user: User, confirmed: bool, response: Outcome<()>)
      returns (prompt: Option<string>, call: Call)
      modifies this
      ensures old(Valid()) ==> Valid()
      ensures !HasId(user) ==> prompt == None && call == NoCall && unchanged(this)
      ensures HasId(user) ==> prompt == Some("Are you sure you want to delete " + user.name + "?")
      ensures HasId(user) && !confirmed ==> call == NoCall && unchanged(this)
      ensures HasId(user) && confirmed ==> call == Remove(user.id.value)
      ensures HasId(user) && confirmed && response.Resolved? ==>
                users == WithoutId(old(users), user.id.value)
      ensures response.Rejected? ==> unchanged(this)
      // The edit session is never touched.
      ensures newUser == old(newUser) && editingUser == old(editingUser)
      ensures isEditMode == old(isEditMode)
    {
      if !HasId(user) {
        return None, NoCall;
      }
      prompt := Some(ConfirmMessage(user.name));
      if !confirmed {
        return prompt, NoCall;
      }
      call := Remove(user.id.value);
      if response.Resolved? {
        users := WithoutId(users, user.id.value);
      }
    }

    /** `cancelEdit`: leaves edit mode and clears the form; the list stays. */
    method CancelEdit()
      modifies this
      ensures Valid()
      ensures !isEditMode && editingUser == None && newUser == EmptyDraft
      ensures users == old(users)
    {
      isEditMode := false;
      editingUser := None;
      ResetForm();
    }

    /** `resetForm`: clears the form draft and nothing else. */
    method ResetForm()
      modifies this
      ensures newUser == EmptyDraft
      ensures users == old(users) && editingUser == old(editingUser)
      ensures isEditMode == old(isEditMode)
    {
      newUser := EmptyDraft;
    }
  }

  // ---------------------------------------------------------------------------
  // Clients: what callers can conclude from the contracts alone
  // ---------------------------------------------------------------------------

  /**
   * `cancelEdit` is idempotent: on a component that is already out of edit
   * mode with an empty draft, one more call changes nothing.
   */
  method CancelEditIdempotent(c: UserComponent)
    requires !c.isEditMode && c.editingUser == None && c.newUser == EmptyDraft
    modifies c
    ensures c.users == old(c.users) && c.newUser == old(c.newUser)
    ensures c.editingUser == old(c.editingUser) && c.isEditMode == old(c.isEditMode)
  {
    c.CancelEdit();
  }

  /** Deleting the id held only by the middle one of three users keeps the outer two. */
  lemma WithoutIdMiddle(a: User, b: User, d: User, id: int)
    requires a.id != Some(id) && b.id == Some(id) && d.id != Some(id)
    ensures WithoutId([a, b, d], id) == [a, d]
  {
    assert [a, b, d][1..] == [b, d];
    assert [b, d][1..] == [d];
    assert [d][1..] == [];
  }

  /**
   * Load two users, create a third, edit the second and submit a changed
   * draft, then delete the second: the update replaces only the second
   * entry, and the delete removes it and keeps the others in order.
   */
  method DataConsistencyScenario() returns (afterUpdate: seq<User>, afterDelete: seq<User>, mode: bool)
    ensures afterUpdate == [User(Some(1), "User 1", "user1@example.com"),
                            User(Some(2), "Updated User 2", "updated2@example.com"),
                            User(Some(3), "User 3", "user3@example.com")]
    ensures !mode
    ensures afterDelete == [User(Some(1), "User 1", "user1@example.com"),
                            User(Some(3), "User 3", "user3@example.com")]
  {
    var u1 := User(Some(1), "User 1", "user1@example.com");
    var u2 := User(Some(2), "User 2", "user2@example.com");
    var u3 := User(Some(3), "User 3", "user3@example.com");
    var u2' := User(Some(2), "Updated User 2", "updated2@example.com");
    var c := new UserComponent();
    c.NgOnInit([u1, u2]);
    c.newUser := User(None, "User 3", "user3@example.com");
    assert !Incomplete(c.newUser) && !c.Updating();
    var call := c.AddUser(Resolved(u3));
    assert c.users == [u1, u2] + [u3] == [u1, u2, u3];
    c.EditUser(u2);
    c.newUser := User(None, "Updated User 2", "updated2@example.com");
    assert !Incomplete(c.newUser) && c.Updating() && c.editingUser.value.id.value == 2;
    assert FirstWithId([u1, u2, u3], 2, 1);
    call := c.AddUser(Resolved(u2'));
    assert c.users == [u1, u2, u3][1 := u2'] == [u1, u2', u3];
    afterUpdate, mode := c.users, c.isEditMode;
    var prompt;
    prompt, call := c.DeleteUser(u2', true, Resolved(()));
    WithoutIdMiddle(u1, u2', u3, 2);
    afterDelete := c.users;
  }

  /**
   * Deleting one user while another is being edited removes it and keeps
   * the edit session.
   */
  method DeleteWhileEditingScenario() returns (final: seq<User>, editing: Option<User>, mode: bool)
    ensures final == [User(Some(1), "John Doe", "john@example.com")]
    ensures editing == Some(User(Some(1), "John Doe", "john@example.com"))
    ensures mode
  {
    var john := User(Some(1), "John Doe", "john@example.com");
    var jane := User(Some(2), "Jane Smith", "jane@example.com");
    var c := new UserComponent();
    c.NgOnInit([john, jane]);
    c.EditUser(john);
    var prompt, call := c.DeleteUser(jane, true, Resolved(()));
    assert WithoutId([john], 2) == [john];
    WithoutIdAppend([john], [jane], 2);
    assert [john] + [jane] == [john, jane];
    final, editing, mode := c.users, c.editingUser, c.isEditMode;
  }
}
