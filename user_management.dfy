/**
 * The user administration screen: the search box, the counters, the
 * add/edit dialog and the request it sends, the status toggle, and the
 * initials shown in each row's avatar.
 */
module UserManagement {
  import opened Wrappers
  import opened Seqs
  import opened Text
  import opened Inventory
  import Server

  datatype Status = Active | Inactive

  /** A user as the listing returns it (the creation time is not shown by the model). */
  datatype ManagedUser = ManagedUser(id: string, name: string, email: string, role: Role, status: Status)

  function RoleName(r: Role): string
  {
    if r == AdminRole then "admin" else "user"
  }

  function StatusName(s: Status): string
  {
    if s == Active then "active" else "inactive"
  }

  function Flip(s: Status): (t: Status)
    ensures t != s
  {
    if s == Active then Inactive else Active
  }

  // ---------------------------------------------------------------------------
  // Search.

  /** The search box's test: the name or the email includes the term, ignoring case. */
  function MatchesUserSearch(term: string): ManagedUser -> bool
  {
    (u: ManagedUser) => ContainsIgnoreCase(u.name, term) || ContainsIgnoreCase(u.email, term)
  }

  /** `filteredUsers`: the users whose name or email includes the term, in listing order. */
  function FilteredUsers(users: seq<ManagedUser>, term: string): (r: seq<ManagedUser>)
    ensures forall u :: u in r <==>
      u in users && (ContainsIgnoreCase(u.name, term) || ContainsIgnoreCase(u.email, term))
    ensures IsSubseq(r, users)
  {
    FilterIsSubseq(users, MatchesUserSearch(term));
    Filter(users, MatchesUserSearch(term))
  }

  /** An empty search box lists every user. */
  lemma EmptyUserSearchShowsAll(users: seq<ManagedUser>)
    ensures FilteredUsers(users, "") == users
  {
    forall u | u in users ensures MatchesUserSearch("")(u) {
      EmptyIsContained(u.name);
    }
    FilterKeepsAll(users, MatchesUserSearch(""));
  }

  /** The case the term is typed in does not change what is listed. */
  lemma UserSearchIgnoresCase(users: seq<ManagedUser>, t1: string, t2: string)
    requires LowerStr(t1) == LowerStr(t2)
    ensures FilteredUsers(users, t1) == FilteredUsers(users, t2)
  {
    forall u | u in users ensures MatchesUserSearch(t1)(u) == MatchesUserSearch(t2)(u) {
      SameLowerSameMatches(u.name, t1, t2);
      SameLowerSameMatches(u.email, t1, t2);
    }
    FilterAgreeing(users, MatchesUserSearch(t1), MatchesUserSearch(t2));
  }

  // ---------------------------------------------------------------------------
  // Counters.

  function HasStatus(s: Status): ManagedUser -> bool
  {
    (u: ManagedUser) => u.status == s
  }

  function HasRole(r: Role): ManagedUser -> bool
  {
    (u: ManagedUser) => u.role == r
  }

  /** The "active users" counter. */
  function ActiveCount(users: seq<ManagedUser>): (n: nat)
    ensures n <= |users|
    ensures n == 0 <==> forall u :: u in users ==> u.status != Active
  {
    var active := Filter(users, HasStatus(Active));
    assert active != [] ==> active[0] in active;
    |active|
  }

  /** The "administrators" counter. */
  function AdminCount(users: seq<ManagedUser>): (n: nat)
    ensures n <= |users|
    ensures n == 0 <==> forall u :: u in users ==> u.role != AdminRole
  {
    var admins := Filter(users, HasRole(AdminRole));
    assert admins != [] ==> admins[0] in admins;
    |admins|
  }

  /** The active users and the inactive ones make up the total. */
  lemma ActiveAndInactiveMakeTotal(users: seq<ManagedUser>)
    ensures ActiveCount(users) + |Filter(users, HasStatus(Inactive))| == |users|
  {
    FilterComplementLength(users, HasStatus(Active), HasStatus(Inactive));
  }

  // ---------------------------------------------------------------------------
  // The add/edit dialog.

  /** What the dialog sends: the edit carries no password, the creation does. */
  datatype UserRequest =
    | UpdateFields(id: string, name: string, email: string, role: Role)
    | CreateUser(name: string, email: string, role: Role, password: string)

  /** The JSON body of the request. */
  function RequestBody(req: UserRequest): (body: Server.Record)
    ensures body.Keys == if req.UpdateFields? then {"name", "email", "role"} else {"name", "email", "role", "password"}
    ensures body["name"] == Server.Str(req.name) && body["email"] == Server.Str(req.email)
    ensures body["role"] == Server.Str(RoleName(req.role))
    ensures req.CreateUser? ==> body["password"] == Server.Str(req.password)
  {
    var fields := map["name" := Server.Str(req.name), "email" := Server.Str(req.email),
                      "role" := Server.Str(RoleName(req.role))];
    if req.UpdateFields? then fields else fields["password" := Server.Str(req.password)]
  }

  /**
   * An edit sent to the user route changes the name, email and role and
   * keeps every other stored field, the password and the status included.
   */
  lemma EditKeepsOtherFields(stored: Server.Record, id: string, name: string, email: string, role: Role)
    ensures var r := Server.Merged(stored, RequestBody(UpdateFields(id, name, email, role)), id);
      && r["name"] == Server.Str(name) && r["email"] == Server.Str(email)
      && r["role"] == Server.Str(RoleName(role))
      && forall f :: f in stored && f !in {"name", "email", "role", "id"} ==> f in r && r[f] == stored[f]
  {
  }

  /** The form: its four fields, the user being edited, and whether the add dialog is open. */
  class UserForm {
    var name: string
    var email: string
    var role: Role
    var password: string
    var editing: Option<ManagedUser>
    var addDialogOpen: bool

    constructor ()
      ensures name == "" && email == "" && role == UserRole && password == ""
      ensures editing == None && !addDialogOpen
    {
      name, email, role, password := "", "", UserRole, "";
      editing := None;
      addDialogOpen := false;
    }

    /** `handleEdit`: the form shows the user, with an empty password. */
    method HandleEdit(u: ManagedUser)
      modifies this`editing, this`name, this`email, this`role, this`password
      ensures editing == Some(u)
      ensures name == u.name && email == u.email && role == u.role && password == ""
    {
      editing := Some(u);
      name, email, role, password := u.name, u.email, u.role, "";
    }

    /** Closing the edit dialog: no user is edited and the form is back to its defaults. */
    method CancelEdit()
      modifies this`editing, this`name, this`email, this`role, this`password
      ensures editing == None
      ensures name == "" && email == "" && role == UserRole && password == ""
    {
      editing := None;
      name, email, role, password := "", "", UserRole, "";
    }

    /** The request the current form sends, if it passes the checks. */
    function Pending(): (req: Option<UserRequest>)
      reads this
      ensures req.None? <==> name == "" || email == "" || (editing.None? && password == "")
      ensures req.Some? ==> req.value.name == name && req.value.email == email && req.value.role == role
      ensures req.Some? ==> (req.value.UpdateFields? <==> editing.Some?)
      ensures req.Some? && editing.Some? ==> req.value.id == editing.value.id
      ensures req.Some? && editing.None? ==> req.value.password == password
    {
      if name == "" || email == "" || (editing.None? && password == "") then None
      else if editing.Some? then Some(UpdateFields(editing.value.id, name, email, role))
      else Some(CreateUser(name, email, role, password))
    }

    /**
     * `handleSubmit`: an empty name or email, or an empty password on a
     * creation, stops it with nothing sent. Otherwise the request goes out;
     * `accepted` is whether the server answered it with success. Only then
     * is the edit closed (or the add dialog shut) and the form cleared; a
     * refused request leaves the form as it was.
     */
    method HandleSubmit(accepted: bool) returns (sent: Option<UserRequest>)
      modifies this
      ensures sent == old(Pending())
      ensures sent.None? || !accepted ==> unchanged(this)
      ensures sent.Some? && accepted ==>
        && name == "" && email == "" && role == UserRole && password == ""
        && editing == None
        && addDialogOpen == (old(addDialogOpen) && old(editing).Some?)
    {
      sent := Pending();
      if sent.None? || !accepted {
        return;
      }
      if editing.Some? {
        editing := None;
      } else {
        addDialogOpen := false;
      }
      name, email, role, password := "", "", UserRole, "";
    }
  }

  // ---------------------------------------------------------------------------
  // Status toggle.

  function HasUserId(id: string): ManagedUser -> bool
  {
    (u: ManagedUser) => u.id == id
  }

  /** The body that sets a status. */
  function StatusBody(s: Status): Server.Record
  {
    map["status" := Server.Str(StatusName(s))]
  }

  /** The status a stored record holds, if it holds one of the two. */
  function StatusOf(r: Server.Record): (s: Option<Status>)
    ensures s == Some(Active) <==> "status" in r && r["status"] == Server.Str("active")
    ensures s == Some(Inactive) <==> "status" in r && r["status"] == Server.Str("inactive")
  {
    if "status" in r && r["status"] == Server.Str("active") then Some(Active)
    else if "status" in r && r["status"] == Server.Str("inactive") then Some(Inactive)
    else None
  }

  /**
   * `toggleUserStatus`: nothing is sent for an id the listing does not hold;
   * otherwise the status of the first listed user with that id, flipped.
   */
  function ToggleRequest(users: seq<ManagedUser>, id: string): (body: Option<Server.Record>)
    ensures body.None? <==> forall u :: u in users ==> u.id != id
    ensures body.Some? ==>
      exists i ::
        && 0 <= i < |users| && users[i].id == id
        && (forall j :: 0 <= j < i ==> users[j].id != id)
        && body.value == StatusBody(Flip(users[i].status))
  {
    match FindIndex(users, HasUserId(id))
    case None =>
      assert forall u :: u in users ==> u.id != id by {
        forall u | u in users ensures u.id != id {
          var j :| 0 <= j < |users| && users[j] == u;
          assert !HasUserId(id)(users[j]);
        }
      }
      None
    case Some(i) =>
      assert forall j :: 0 <= j < i ==> !HasUserId(id)(users[j]);
      Some(StatusBody(Flip(users[i].status)))
  }

  /** The toggle stores the other status and leaves every other field but the id as it was. */
  lemma ToggleFlipsStoredStatus(stored: Server.Record, id: string, s: Status)
    requires StatusOf(stored) == Some(s)
    ensures var r := Server.Merged(stored, StatusBody(Flip(s)), id);
      && StatusOf(r) == Some(Flip(s))
      && forall f :: f in stored && f != "status" && f != "id" ==> f in r && r[f] == stored[f]
  {
  }

  /** Toggling a stored user twice gives back the record it was. */
  lemma ToggleTwiceRestores(stored: Server.Record, id: string, s: Status)
    requires StatusOf(stored) == Some(s)
    requires "id" in stored && stored["id"] == Server.Str(id)
    ensures Server.Merged(Server.Merged(stored, StatusBody(Flip(s)), id), StatusBody(Flip(Flip(s))), id) == stored
  {
    var once := Server.Merged(stored, StatusBody(Flip(s)), id);
    var twice := Server.Merged(once, StatusBody(Flip(Flip(s))), id);
    assert twice.Keys == stored.Keys;
    forall f | f in stored ensures twice[f] == stored[f] {
      if f == "status" {
        assert Flip(Flip(s)) == s;
      }
    }
  }

  // ---------------------------------------------------------------------------
  // Initials.

  /** `n[0]` for each part, where an empty part gives `undefined`, which `join('')` writes as nothing. */
  function FirstChars(parts: seq<string>): string
  {
    if parts == [] then ""
    else (if parts[0] == "" then "" else [parts[0][0]]) + FirstChars(parts[1..])
  }

  /** `getInitials`: the first characters of the space-separated parts, upper-cased, at most two. */
  function GetInitials(name: string): (r: string)
    ensures |r| <= 2
    ensures forall k :: 0 <= k < |r| ==> !IsLowerLetter(r[k])
  {
    var all := UpperStr(FirstChars(Split(name, ' ')));
    if |all| <= 2 then all else all[..2]
  }

  /** With no empty part, each part gives exactly its first character. */
  lemma {:induction false} FirstCharsOfWords(words: seq<string>)
    requires forall k :: 0 <= k < |words| ==> words[k] != ""
    ensures |FirstChars(words)| == |words|
    ensures forall k :: 0 <= k < |words| ==> FirstChars(words)[k] == words[k][0]
    decreases |words|
  {
    if words != [] {
      FirstCharsOfWords(words[1..]);
    }
  }

  /**
   * A name made of words joined by single spaces gets the upper-cased first
   * letters of its first two words, in order (one letter for a single word).
   */
  lemma InitialsOfWords(words: seq<string>)
    requires |words| >= 1
    requires forall k :: 0 <= k < |words| ==> words[k] != "" && ' ' !in words[k]
    ensures var r := GetInitials(Join(words, ' '));
      && |r| == (if |words| == 1 then 1 else 2)
      && r[0] == UpperChar(words[0][0])
      && (|words| > 1 ==> r[1] == UpperChar(words[1][0]))
  {
    SplitJoin(words, ' ');
    FirstCharsOfWords(words);
  }
}
