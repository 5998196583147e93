/**
 * Credential mapping: which call types a physician may take, derived from the names of
 * the credential groups they belong to, and the grouping of roster users by call type.
 * The group-membership lookup is an input: either an answer (a success flag and the
 * group names) or an exception.
 */
module Credentials {
  import opened Wrappers

  /** The outcome of asking for one user's groups. */
  datatype GroupsResponse = Answered(success: bool, groupNames: seq<string>) | Raised

  /** One roster entry, with the answer to its group lookup. */
  datatype RosterUser = RosterUser(userId: int, groups: GroupsResponse)

  /** How many roster users the grouping looks at. */
  const RosterLimit := 20

  /** The static credential-group table, in the order it is written: group name, call types granted. */
  function CredentialTable(): seq<(string, seq<string>)> {
    [
      ("Cred Call: CMCG Call Pool", ["CMCG"]),
      ("Cred Call: CMCO Call Pool", ["CMCO"]),
      ("Cred Call: LPH Call Pool", ["LP7", "LPG", "LPO"]),
      ("Cred Call: MCL Call Pool", ["MCL7", "MCLG", "MCLO"]),
      ("Cred Call: MCK Call Pool", ["MCKC_N", "MCKT_D", "MCKG_D"]),
      ("Cred Call: THDN Call Pool", ["THDN7", "THDNG", "THDNO"]),
      ("Cred Call: NE Call Pool", ["NE"]),
      ("Cred Call: PHR Call Pool", ["PHR7", "PHRG", "PHRO"])
    ]
  }

  /** The dictionary lookup `table.get(name)` over a list of entries: the first entry with that name. */
  function Lookup(table: seq<(string, seq<string>)>, name: string): (r: Option<seq<string>>)
    ensures r.Some? ==> exists i :: 0 <= i < |table| && table[i] == (name, r.value)
    ensures r.None? <==> forall i :: 0 <= i < |table| ==> table[i].0 != name
  {
    if table == [] then None
    else if table[0].0 == name then Some(table[0].1)
    else
      var r := Lookup(table[1..], name);
      assert forall i :: 0 <= i < |table[1..]| ==> table[1..][i] == table[i + 1];
      r
  }

  /** The call types that the grouping lists, each with its own (initially empty) list. */
  function DeclaredCallTypes(): set<string> {
    {"CMCG", "CMCO", "LP7", "LPG", "LPO", "MCL7", "MCLG", "MCLO", "MCKC_N", "MCKT_D", "MCKG_D",
     "THDN7", "THDNG", "THDNO", "NE", "PHR7", "PHRG", "PHRO"}
  }

  /** Every call type that some group of the table grants. */
  function TableCallTypes(): set<string> {
    set i, ct | 0 <= i < |CredentialTable()| && ct in CredentialTable()[i].1 :: ct
  }

  /** The table grants exactly the declared call types. */
  lemma TableGrantsDeclaredCallTypes()
    ensures TableCallTypes() == DeclaredCallTypes()
  {
    var t := CredentialTable();
    assert "CMCG" in t[0].1 && "CMCO" in t[1].1;
    assert "LP7" in t[2].1 && "LPG" in t[2].1 && "LPO" in t[2].1;
    assert "MCL7" in t[3].1 && "MCLG" in t[3].1 && "MCLO" in t[3].1;
    assert "MCKC_N" in t[4].1 && "MCKT_D" in t[4].1 && "MCKG_D" in t[4].1;
    assert "THDN7" in t[5].1 && "THDNG" in t[5].1 && "THDNO" in t[5].1;
    assert "NE" in t[6].1;
    assert "PHR7" in t[7].1 && "PHRG" in t[7].1 && "PHRO" in t[7].1;
  }

  /** The union of the call types the table maps the given groups to; unknown names add nothing. */
  function Granted(groups: seq<string>): set<string> {
    set g, ct | g in groups && Lookup(CredentialTable(), g).Some? && ct in Lookup(CredentialTable(), g).value :: ct
  }

  /** What `get_user_call_credentials` returns for a lookup outcome. */
  function CredentialsOf(response: GroupsResponse): set<string> {
    if response.Answered? && response.success then Granted(response.groupNames) else {}
  }

  /**
   * The credentials depend only on which groups occur, not on their order or repetition,
   * and never leave the table's call types.
   */
  lemma GrantedDependsOnGroupSet(groups1: seq<string>, groups2: seq<string>)
    requires forall g :: g in groups1 <==> g in groups2
    ensures Granted(groups1) == Granted(groups2)
    ensures Granted(groups1) <= TableCallTypes()
  {
    forall ct | ct in Granted(groups1) ensures ct in TableCallTypes() {
      var g :| g in groups1 && Lookup(CredentialTable(), g).Some? && ct in Lookup(CredentialTable(), g).value;
      var i :| 0 <= i < |CredentialTable()| && CredentialTable()[i] == (g, Lookup(CredentialTable(), g).value);
    }
  }

  /** A group name that is not a table key, such as a differently-cased one, adds nothing. */
  lemma UnknownGroupAddsNothing(groups: seq<string>, name: string)
    requires forall i :: 0 <= i < |CredentialTable()| ==> CredentialTable()[i].0 != name
    ensures Granted(groups + [name]) == Granted(groups)
    ensures Granted([name]) == {}
  {
    assert forall g :: g in groups + [name] <==> g in groups || g == name;
  }

  /**
   * `get_user_call_credentials`: on a successful answer, the union of the table entries of
   * the user's groups; on a failed answer or an exception, no credentials.
   */
  method GetUserCallCredentials(response: GroupsResponse) returns (credentials: set<string>)
    ensures credentials == CredentialsOf(response)
    ensures !(response.Answered? && response.success) ==> credentials == {}
  {
    if response.Raised? || !response.success {
      return {};
    }
    var groups := response.groupNames;
    credentials := {};
    var i := 0;
    while i < |groups|
      invariant 0 <= i <= |groups|
      invariant credentials == Granted(groups[..i])
    {
      var name := groups[i];
      assert forall g :: g in groups[..i + 1] <==> g in groups[..i] || g == name by {
        assert groups[..i + 1] == groups[..i] + [name];
      }
      var entry := Lookup(CredentialTable(), name);
      if entry.Some? {
        credentials := credentials + (set ct | ct in entry.value);
      }
      i := i + 1;
    }
    assert groups[..i] == groups;
  }

  /** The users that are looked at: the first twenty of the roster. */
  function Considered(roster: seq<RosterUser>): (c: seq<RosterUser>)
    ensures |c| == if |roster| <= RosterLimit then |roster| else RosterLimit
    ensures c == roster[..|c|]
  {
    if |roster| <= RosterLimit then roster else roster[..RosterLimit]
  }

  /** The credential set of each user, in order. */
  function CredentialSets(users: seq<RosterUser>): (creds: seq<set<string>>)
    ensures |creds| == |users|
  {
    seq(|users|, i requires 0 <= i < |users| => CredentialsOf(users[i].groups))
  }

  /** The ids, in order, of the users whose credential set includes `callType`. */
  function Listed(users: seq<RosterUser>, creds: seq<set<string>>, callType: string): seq<int>
    requires |creds| == |users|
  {
    if users == [] then []
    else
      var n := |users| - 1;
      Listed(users[..n], creds[..n], callType) + (if callType in creds[n] then [users[n].userId] else [])
  }

  /** A user id is listed under a call type exactly when a user with that id holds the credential. */
  lemma {:induction false} ListedMembers(users: seq<RosterUser>, creds: seq<set<string>>, callType: string, id: int)
    requires |creds| == |users|
    ensures id in Listed(users, creds, callType) <==>
      exists i :: 0 <= i < |users| && users[i].userId == id && callType in creds[i]
  {
    if users != [] {
      var n := |users| - 1;
      ListedMembers(users[..n], creds[..n], callType, id);
      assert forall i :: 0 <= i < n ==> users[..n][i] == users[i] && creds[..n][i] == creds[i];
    }
  }

  /** Listing one more user appends their id exactly to the lists of their credentials. */
  lemma ListedSnoc(users: seq<RosterUser>, creds: seq<set<string>>, user: RosterUser, credentials: set<string>, callType: string)
    requires |creds| == |users|
    ensures Listed(users + [user], creds + [credentials], callType) ==
      Listed(users, creds, callType) + (if callType in credentials then [user.userId] else [])
  {
    assert (users + [user])[..|users|] == users;
    assert (creds + [credentials])[..|creds|] == creds;
  }

  /**
   * The inner loop of `get_credentialed_users_by_call_type`: appends the user's id to the
   * list of every credential that has a list, and leaves every other list alone.
   */
  method AppendToCredentialLists(byCallType: map<string, seq<int>>, credentials: set<string>, userId: int)
    returns (updated: map<string, seq<int>>)
    ensures updated.Keys == byCallType.Keys
    ensures forall ct :: ct in updated ==>
      updated[ct] == byCallType[ct] + (if ct in credentials then [userId] else [])
  {
    updated := byCallType;
    var remaining := credentials;
    while remaining != {}
      invariant remaining <= credentials
      invariant updated.Keys == byCallType.Keys
      invariant forall ct :: ct in updated ==>
        updated[ct] == byCallType[ct] + (if ct in credentials - remaining then [userId] else [])
      decreases remaining
    {
      var ct :| ct in remaining;
      if ct in updated {
        updated := updated[ct := updated[ct] + [userId]];
      }
      remaining := remaining - {ct};
    }
  }

  /** One empty list per call type. */
  function EmptyLists(callTypes: set<string>): (lists: map<string, seq<int>>)
    ensures lists.Keys == callTypes
    ensures forall ct :: ct in lists ==> lists[ct] == []
  {
    map ct | ct in callTypes :: []
  }

  /** Appending a user's id to the lists of their credentials keeps every list equal to `Listed`. */
  lemma ListedStep(before: map<string, seq<int>>, after: map<string, seq<int>>, users: seq<RosterUser>,
                   creds: seq<set<string>>, user: RosterUser, credentials: set<string>)
    requires |creds| == |users|
    requires forall ct :: ct in before ==> before[ct] == Listed(users, creds, ct)
    requires after.Keys == before.Keys
    requires forall ct :: ct in after ==> after[ct] == before[ct] + (if ct in credentials then [user.userId] else [])
    ensures forall ct :: ct in after ==> after[ct] == Listed(users + [user], creds + [credentials], ct)
  {
    forall ct | ct in after
      ensures after[ct] == Listed(users + [user], creds + [credentials], ct)
    {
      ListedSnoc(users, creds, user, credentials, ct);
    }
  }

  /**
   * The loop over the considered users: starting from empty lists, appends each user's id
   * to the list of every credential of theirs that has one.
   */
  method ListCredentialedUsers(considered: seq<RosterUser>, lists: map<string, seq<int>>)
    returns (byCallType: map<string, seq<int>>)
    requires forall ct :: ct in lists ==> lists[ct] == []
    ensures byCallType.Keys == lists.Keys
    ensures forall ct :: ct in byCallType ==> byCallType[ct] == Listed(considered, CredentialSets(considered), ct)
  {
    byCallType := lists;
    ghost var creds: seq<set<string>> := [];
    var n := 0;
    while n < |considered|
      invariant 0 <= n <= |considered|
      invariant byCallType.Keys == lists.Keys
      invariant creds == CredentialSets(considered)[..n]
      invariant forall ct :: ct in byCallType ==> byCallType[ct] == Listed(considered[..n], creds, ct)
    {
      var user := considered[n];
      var credentials := GetUserCallCredentials(user.groups);
      var next := byCallType;
      if credentials != {} {
        next := AppendToCredentialLists(byCallType, credentials, user.userId);
      }
      ListedStep(byCallType, next, considered[..n], creds, user, credentials);
      byCallType := next;
      assert considered[..n + 1] == considered[..n] + [user];
      creds := creds + [credentials];
      n := n + 1;
    }
    assert considered[..n] == considered;
    assert CredentialSets(considered)[..n] == CredentialSets(considered);
  }

  /**
   * `get_credentialed_users_by_call_type`: one list per declared call type, holding, in
   * roster order, the ids of the first twenty roster users credentialed for it.
   */
  method GetCredentialedUsersByCallType(roster: seq<RosterUser>) returns (byCallType: map<string, seq<int>>)
    ensures byCallType.Keys == DeclaredCallTypes()
    ensures forall ct :: ct in byCallType ==>
      byCallType[ct] == Listed(Considered(roster), CredentialSets(Considered(roster)), ct)
  {
    byCallType := ListCredentialedUsers(Considered(roster), EmptyLists(DeclaredCallTypes()));
  }

  /** Whatever the group lookup answers, the credentials are among the declared call types. */
  lemma CredentialsAreDeclared(response: GroupsResponse)
    ensures CredentialsOf(response) <= DeclaredCallTypes()
  {
    if response.Answered? && response.success {
      GrantedDependsOnGroupSet(response.groupNames, response.groupNames);
      TableGrantsDeclaredCallTypes();
    }
  }

  /** An id is listed under a call type exactly when one of the first twenty roster users with that id has the credential. */
  lemma ConsideredMembers(roster: seq<RosterUser>, callType: string, id: int)
    ensures id in Listed(Considered(roster), CredentialSets(Considered(roster)), callType) <==>
      exists i :: 0 <= i < |roster| && i < RosterLimit && roster[i].userId == id && callType in CredentialsOf(roster[i].groups)
  {
    var c := Considered(roster);
    var creds := CredentialSets(c);
    ListedMembers(c, creds, callType, id);
    assert forall i :: 0 <= i < |c| ==> c[i] == roster[i] && creds[i] == CredentialsOf(roster[i].groups);
    assert |c| == if |roster| <= RosterLimit then |roster| else RosterLimit;
  }

  /** Only declared call types ever have a listed user. */
  lemma ListedOnlyDeclared(users: seq<RosterUser>, callType: string)
    ensures Listed(users, CredentialSets(users), callType) != [] ==> callType in DeclaredCallTypes()
  {
    var creds := CredentialSets(users);
    var listed := Listed(users, creds, callType);
    if listed != [] {
      ListedMembers(users, creds, callType, listed[0]);
      var i :| 0 <= i < |users| && users[i].userId == listed[0] && callType in creds[i];
      CredentialsAreDeclared(users[i].groups);
    }
  }

  /**
   * A user id appears under a call type exactly when one of the first twenty roster users
   * with that id is credentialed for it; only declared call types have users.
   */
  lemma CredentialedUsersMembership(roster: seq<RosterUser>, callType: string, id: int)
    ensures id in Listed(Considered(roster), CredentialSets(Considered(roster)), callType) <==>
      exists i :: 0 <= i < |roster| && i < RosterLimit && roster[i].userId == id && callType in CredentialsOf(roster[i].groups)
    ensures Listed(Considered(roster), CredentialSets(Considered(roster)), callType) != [] ==> callType in DeclaredCallTypes()
  {
    ConsideredMembers(roster, callType, id);
    ListedOnlyDeclared(Considered(roster), callType);
  }
}
