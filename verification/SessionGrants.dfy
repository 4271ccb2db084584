/** Which sessions a socket client may use: grants, and the search for a granted ancestor along the
    parents of a session. The table maps each session to its parent; a root is its own parent. */
module SessionGrants {
  import opened JsText

  type Id = string

  // ----- ancestors -----------------------------------------------------------------------

  /** The n-th parent of a session, while there is one. */
  function Nth(table: map<Id, Id>, id: Id, n: nat): Option<Id> {
    if n == 0 then Some(id)
    else
      var below := Nth(table, id, n - 1);
      if below.None? || below.value !in table || table[below.value] == below.value then None
      else Some(table[below.value])
  }

  ghost predicate Ancestor(table: map<Id, Id>, id: Id, a: Id) {
    exists n: nat :: n > 0 && Nth(table, id, n) == Some(a)
  }

  /** The proper ancestors found by walking up until a session is met again. */
  function Chain(table: map<Id, Id>, id: Id, visited: set<Id>): set<Id>
    decreases table.Keys - visited
  {
    if id !in table || table[id] == id || id in visited then {}
    else {table[id]} + Chain(table, table[id], visited + {id})
  }

  lemma {:induction false} NthPlus(table: map<Id, Id>, id: Id, n: nat, m: nat)
    requires Nth(table, id, n).Some?
    ensures Nth(table, id, n + m) == Nth(table, Nth(table, id, n).value, m)
  {
    if m > 0 { NthPlus(table, id, n, m - 1); }
  }

  lemma ParentIsAncestor(table: map<Id, Id>, id: Id)
    requires id in table && table[id] != id
    ensures Ancestor(table, id, table[id])
  {
    assert Nth(table, id, 1) == Some(table[id]);
  }

  lemma AncestorsAbove(table: map<Id, Id>, id: Id, a: Id, b: Id)
    requires Ancestor(table, id, a) && (Ancestor(table, a, b) || a == b)
    ensures Ancestor(table, id, b)
  {
    var n: nat :| n > 0 && Nth(table, id, n) == Some(a);
    if a != b {
      var m: nat :| m > 0 && Nth(table, a, m) == Some(b);
      NthPlus(table, id, n, m);
    }
  }

  lemma {:induction false} ChainHasAncestors(table: map<Id, Id>, id: Id, visited: set<Id>, a: Id)
    requires a in Chain(table, id, visited)
    ensures Ancestor(table, id, a)
    decreases table.Keys - visited
  {
    ParentIsAncestor(table, id);
    if a != table[id] {
      ChainHasAncestors(table, table[id], visited + {id}, a);
      AncestorsAbove(table, id, table[id], a);
    }
  }

  /** The walk leaves out no parent but those of sessions visited before. */
  lemma {:induction false} ChainIsClosed(table: map<Id, Id>, id: Id, visited: set<Id>, x: Id)
    requires x == id || x in Chain(table, id, visited)
    requires x in table && table[x] != x && x !in visited
    ensures table[x] in Chain(table, id, visited)
    decreases table.Keys - visited
  {
    if x != id {
      ChainIsClosed(table, table[id], visited + {id}, x);
    }
  }

  lemma {:induction false} ChainHasNth(table: map<Id, Id>, id: Id, n: nat)
    requires Nth(table, id, n).Some?
    ensures n > 0 ==> Nth(table, id, n).value in Chain(table, id, {})
  {
    if n > 0 {
      ChainHasNth(table, id, n - 1);
      ChainIsClosed(table, id, {}, Nth(table, id, n - 1).value);
    }
  }

  /** Cycles included, the walk finds exactly the ancestors. */
  lemma ChainIsAncestors(table: map<Id, Id>, id: Id, a: Id)
    ensures a in Chain(table, id, {}) <==> Ancestor(table, id, a)
  {
    if a in Chain(table, id, {}) {
      ChainHasAncestors(table, id, {}, a);
    }
    if Ancestor(table, id, a) {
      var n: nat :| n > 0 && Nth(table, id, n) == Some(a);
      ChainHasNth(table, id, n);
    }
  }

  /** The search stops on every parent graph, and finds a granted ancestor exactly when there is one. */
  method HasGrantedAncestor(table: map<Id, Id>, grants: set<Id>, session: Id) returns (granted: bool)
    ensures granted <==> exists a :: a in grants && Ancestor(table, session, a)
  {
    var current := if session in table then Some(session) else None;
    var visited: set<Id> := {};
    granted := false;
    while current.Some? && table[current.value] != current.value && current.value !in visited
      invariant current.Some? ==> current.value in table
      invariant (if current.Some? then Chain(table, current.value, visited) else {}) * grants != {} <==>
                Chain(table, session, {}) * grants != {}
      decreases table.Keys - visited
    {
      var id := current.value;
      ghost var above := Chain(table, table[id], visited + {id});
      assert Chain(table, id, visited) == {table[id]} + above;
      visited := visited + {id};
      if table[id] in grants {
        assert table[id] in ({table[id]} + above) * grants;
        granted := true;
        break;
      }
      assert ({table[id]} + above) * grants == above * grants;
      current := if table[id] in table then Some(table[id]) else None;
    }
    ghost var found := Chain(table, session, {}) * grants;
    assert granted <==> found != {};
    if found != {} {
      var a :| a in found;
      ChainIsAncestors(table, session, a);
    } else if exists a :: a in grants && Ancestor(table, session, a) {
      var a :| a in grants && Ancestor(table, session, a);
      ChainIsAncestors(table, session, a);
    }
  }

  // ----- the server's state --------------------------------------------------------------

  /** The session table and the project of each session, the grants of each client, and the ids given
      out so far. */
  datatype State = State(table: map<Id, Id>, projects: map<Id, string>, grants: map<string, set<Id>>, used: set<Id>)

  const EMPTY := State(map[], map[], map[], {})

  function Grants(s: State, client: string): set<Id> {
    if client in s.grants then s.grants[client] else {}
  }

  function Granted(s: State, client: string, id: Id): State {
    s.(grants := s.grants[client := Grants(s, client) + {id}])
  }

  function Inserted(s: State, id: Id, parent: Id, project: string): State {
    s.(table := s.table[id := parent], projects := s.projects[id := project], used := s.used + {id})
  }

  function ProjectOf(s: State, id: Id): string {
    if id in s.projects then s.projects[id] else ""
  }

  /** The session and all below it, as the foreign key cascades. */
  function Doomed(table: map<Id, Id>, id: Id): set<Id> {
    set x | x in table && (x == id || id in Chain(table, x, {}))
  }

  function Remaining(table: map<Id, Id>, id: Id): map<Id, Id> {
    map x | x in table && x !in Doomed(table, id) :: table[x]
  }

  /** Only the grant on the deleted session itself is taken back, from every client. */
  function Deleted(s: State, id: Id): State {
    s.(table := Remaining(s.table, id), grants := map c | c in s.grants :: s.grants[c] - {id})
  }

  datatype Step =
    | CreateSession(client: string, id: Id, project: string)
    | CreateBranch(client: string, source: Id, id: Id)
    | CreateSubSession(parent: Id, id: Id, project: string)
    | Attach(client: string, id: Id, project: string)
    | Delete(id: Id, project: string)
    | Disconnect(client: string)

  ghost predicate MayUse(s: State, client: string, id: Id) {
    id in Grants(s, client) || (id in s.table && exists a :: a in Grants(s, client) && Ancestor(s.table, id, a))
  }

  ghost predicate MayAttach(s: State, client: string, id: Id, project: string) {
    && id in s.table && ProjectOf(s, id) == project
    && (s.table[id] == id || exists a :: a in Grants(s, client) && Ancestor(s.table, id, a))
  }

  /** A step; refused requests change nothing, and new ids were never used before. */
  ghost function Next(s: State, step: Step): State {
    match step
    case CreateSession(client, id, project) =>
      if id in s.used then s else Granted(Inserted(s, id, id, project), client, id)
    case CreateBranch(client, source, id) =>
      if id in s.used || source !in s.table || !MayUse(s, client, source) then s
      else Granted(Inserted(s, id, id, ProjectOf(s, source)), client, id)
    case CreateSubSession(parent, id, project) =>
      if id in s.used || parent !in s.table then s else Inserted(s, id, parent, project)
    case Attach(client, id, project) => if MayAttach(s, client, id, project) then Granted(s, client, id) else s
    case Delete(id, project) => if id in s.table && ProjectOf(s, id) == project then Deleted(s, id) else s
    case Disconnect(client) => s.(grants := s.grants - {client})
  }

  class SocketServer {
    var state: State

    constructor ()
      ensures state == EMPTY
    {
      state := EMPTY;
    }

    method RequireSessionGrant(client: string, id: Id) returns (granted: bool)
      ensures granted <==> MayUse(state, client, id)
    {
      if id in Grants(state, client) {
        return true;
      }
      if id !in state.table {
        return false;
      }
      granted := HasGrantedAncestor(state.table, Grants(state, client), id);
    }

    method AttachSessionGrant(client: string, id: Id, project: string) returns (attached: bool)
      modifies this
      ensures state == Next(old(state), Attach(client, id, project))
      ensures attached <==> MayAttach(old(state), client, id, project)
    {
      if id !in state.table || ProjectOf(state, id) != project {
        return false;
      }
      var parent := state.table[id];
      if parent != id && parent !in Grants(state, client) {
        var granted := HasGrantedAncestor(state.table, Grants(state, client), id);
        if !granted {
          return false;
        }
      }
      if parent != id { ParentIsAncestor(state.table, id); }
      state := Granted(state, client, id);
      return true;
    }

    method DeleteSession(id: Id, project: string) returns (deleted: bool)
      modifies this
      ensures state == Next(old(state), Delete(id, project))
      ensures deleted <==> id in old(state).table && ProjectOf(old(state), id) == project
      ensures deleted ==> forall client :: id !in Grants(state, client)
    {
      if id !in state.table || ProjectOf(state, id) != project {
        return false;
      }
      state := Deleted(state, id);
      return true;
    }
  }

  /** Parents are in the table, and every session hangs below a root. */
  ghost predicate Forest(table: map<Id, Id>) {
    && (forall x {:trigger ParentIn(table, x)} | x in table :: ParentIn(table, x))
    && (forall x {:trigger Rooted(table, x)} | x in table :: Rooted(table, x))
  }

  predicate ParentIn(table: map<Id, Id>, id: Id)
    requires id in table
  {
    table[id] in table
  }

  ghost predicate Rooted(table: map<Id, Id>, id: Id) {
    exists n: nat :: IsRoot(table, Nth(table, id, n))
  }

  predicate IsRoot(table: map<Id, Id>, r: Option<Id>) {
    r.Some? && r.value in table && table[r.value] == r.value
  }

  ghost predicate AncestorGranted(s: State, client: string, id: Id) {
    exists a :: a in Grants(s, client) && Ancestor(s.table, id, a)
  }

  /** Every grant on a sub-session that exists has a granted proper ancestor. */
  ghost predicate GrantsHang(s: State) {
    forall client, g {:trigger AncestorGranted(s, client, g)}
      | g in Grants(s, client) && g in s.table && s.table[g] != g :: AncestorGranted(s, client, g)
  }

  ghost predicate Known(s: State) {
    s.table.Keys <= s.used && forall client :: Grants(s, client) <= s.used
  }

  ghost predicate Good(s: State) {
    Forest(s.table) && GrantsHang(s) && Known(s)
  }

  // ----- what steps keep -----------------------------------------------------------------

  predicate Kept(table: map<Id, Id>, table': map<Id, Id>, id: Id)
    requires id in table
  {
    id in table' && table'[id] == table[id] && table[id] in table
  }

  /** A larger table, in which old sessions keep their parents. */
  ghost predicate Extends(table: map<Id, Id>, table': map<Id, Id>) {
    forall x {:trigger Kept(table, table', x)} | x in table :: Kept(table, table', x)
  }

  lemma {:induction false} NthKept(table: map<Id, Id>, table': map<Id, Id>, id: Id, n: nat)
    requires Extends(table, table') && id in table
    ensures Nth(table', id, n) == Nth(table, id, n)
    ensures Nth(table, id, n).Some? ==> Nth(table, id, n).value in table
  {
    if n > 0 {
      NthKept(table, table', id, n - 1);
      var below := Nth(table, id, n - 1);
      assert below.Some? ==> Kept(table, table', below.value);
    }
  }

  lemma AncestorKept(table: map<Id, Id>, table': map<Id, Id>, id: Id, a: Id)
    requires Extends(table, table') && id in table
    ensures Ancestor(table, id, a) <==> Ancestor(table', id, a)
    ensures Ancestor(table, id, a) ==> a in table
  {
    if Ancestor(table, id, a) {
      var n: nat :| n > 0 && Nth(table, id, n) == Some(a);
      NthKept(table, table', id, n);
    }
    if Ancestor(table', id, a) {
      var n: nat :| n > 0 && Nth(table', id, n) == Some(a);
      NthKept(table, table', id, n);
    }
  }

  lemma RootedKept(table: map<Id, Id>, table': map<Id, Id>, id: Id)
    requires Extends(table, table') && id in table
    ensures Rooted(table, id) <==> Rooted(table', id)
  {
    if Rooted(table, id) {
      var n: nat :| IsRoot(table, Nth(table, id, n));
      NthKept(table, table', id, n);
      assert Kept(table, table', Nth(table, id, n).value);
      assert IsRoot(table', Nth(table', id, n));
    }
    if Rooted(table', id) {
      var n: nat :| IsRoot(table', Nth(table', id, n));
      NthKept(table, table', id, n);
      assert Kept(table, table', Nth(table, id, n).value);
      assert IsRoot(table, Nth(table, id, n));
    }
  }

  lemma InsertExtends(table: map<Id, Id>, id: Id, parent: Id)
    requires Forest(table) && id !in table
    ensures Extends(table, table[id := parent])
  {
    forall x | x in table ensures Kept(table, table[id := parent], x) {
      assert ParentIn(table, x);
    }
  }

  lemma RootedBelow(table: map<Id, Id>, id: Id)
    requires id in table && table[id] != id && Rooted(table, table[id])
    ensures Rooted(table, id)
  {
    var n: nat :| IsRoot(table, Nth(table, table[id], n));
    assert Nth(table, id, 1) == Some(table[id]);
    NthPlus(table, id, 1, n);
    assert IsRoot(table, Nth(table, id, 1 + n));
  }

  lemma InsertedForest(table: map<Id, Id>, id: Id, parent: Id)
    requires Forest(table) && id !in table && (parent in table || parent == id)
    ensures Forest(table[id := parent])
  {
    var table' := table[id := parent];
    InsertExtends(table, id, parent);
    forall x | x in table' ensures ParentIn(table', x) {
      assert x != id ==> ParentIn(table, x);
    }
    forall x | x in table' ensures Rooted(table', x) {
      if x != id {
        assert Rooted(table, x);
        RootedKept(table, table', x);
      } else if parent == id {
        assert IsRoot(table', Nth(table', id, 0));
      } else {
        assert Rooted(table, parent);
        RootedKept(table, table', parent);
        RootedBelow(table', id);
      }
    }
  }

  /** Grants that can only have grown, on a table that keeps the sessions it has. */
  lemma HangKept(s: State, s': State, client: string, g: Id)
    requires Extends(s.table, s'.table) && g in s.table && Grants(s, client) <= Grants(s', client)
    requires AncestorGranted(s, client, g)
    ensures AncestorGranted(s', client, g)
  {
    var a :| a in Grants(s, client) && Ancestor(s.table, g, a);
    AncestorKept(s.table, s'.table, g, a);
    assert a in Grants(s', client);
  }

  lemma InsertKeepsGood(s: State, id: Id, parent: Id, project: string)
    requires Good(s) && id !in s.used && (parent in s.table || parent == id)
    ensures Good(Inserted(s, id, parent, project))
  {
    var s' := Inserted(s, id, parent, project);
    InsertedForest(s.table, id, parent);
    InsertExtends(s.table, id, parent);
    forall client ensures Grants(s', client) <= s'.used && id !in Grants(s', client) {
      assert Grants(s', client) == Grants(s, client);
    }
    forall client, g | g in Grants(s', client) && g in s'.table && s'.table[g] != g
      ensures AncestorGranted(s', client, g)
    {
      assert g != id && g in s.table && AncestorGranted(s, client, g);
      HangKept(s, s', client, g);
    }
  }

  lemma SameTable(s: State)
    requires Forest(s.table)
    ensures Extends(s.table, s.table)
  {
    forall x | x in s.table ensures Kept(s.table, s.table, x) {
      assert ParentIn(s.table, x);
    }
  }

  lemma GrantKeepsGood(s: State, client: string, id: Id)
    requires Good(s) && id in s.table && (s.table[id] == id || AncestorGranted(s, client, id))
    ensures Good(Granted(s, client, id))
  {
    var s' := Granted(s, client, id);
    SameTable(s);
    forall c ensures Grants(s', c) == Grants(s, c) + (if c == client then {id} else {}) && Grants(s', c) <= s'.used {
      assert Grants(s, c) <= s.used;
    }
    forall c, g | g in Grants(s', c) && g in s'.table && s'.table[g] != g ensures AncestorGranted(s', c, g) {
      assert AncestorGranted(s, c, g);
      HangKept(s, s', c, g);
    }
  }

  lemma SurvivorHasParent(table: map<Id, Id>, id: Id, x: Id)
    requires x in Remaining(table, id) && table[x] in table
    ensures table[x] in Remaining(table, id)
  {
    ChainIsAncestors(table, x, id);
    ChainIsAncestors(table, table[x], id);
    if table[x] in Doomed(table, id) && table[x] != x {
      ParentIsAncestor(table, x);
      AncestorsAbove(table, x, table[x], id);
    }
  }

  lemma RemainingExtends(table: map<Id, Id>, id: Id)
    requires Forest(table)
    ensures Extends(Remaining(table, id), table)
  {
    var left := Remaining(table, id);
    forall x | x in left ensures Kept(left, table, x) {
      assert ParentIn(table, x);
      SurvivorHasParent(table, id, x);
    }
  }

  lemma DeleteKeepsForest(table: map<Id, Id>, id: Id)
    requires Forest(table)
    ensures Forest(Remaining(table, id))
  {
    var left := Remaining(table, id);
    RemainingExtends(table, id);
    forall x | x in left ensures ParentIn(left, x) && Rooted(left, x) {
      assert Kept(left, table, x) && Rooted(table, x);
      RootedKept(left, table, x);
    }
  }

  lemma SurvivorsHang(s: State, id: Id, client: string, g: Id)
    requires Forest(s.table) && g in Remaining(s.table, id) && id in s.table
    requires AncestorGranted(s, client, g)
    ensures AncestorGranted(Deleted(s, id), client, g)
  {
    var s' := Deleted(s, id);
    var a :| a in Grants(s, client) && Ancestor(s.table, g, a);
    RemainingExtends(s.table, id);
    AncestorKept(s'.table, s.table, g, a);
    assert a in s'.table && id !in s'.table;
    assert a in Grants(s', client);
  }

  lemma DeleteKeepsGood(s: State, id: Id)
    requires Good(s) && id in s.table
    ensures Good(Deleted(s, id))
  {
    var s' := Deleted(s, id);
    DeleteKeepsForest(s.table, id);
    forall c ensures Grants(s', c) == Grants(s, c) - {id} && Grants(s', c) <= s'.used {
      assert Grants(s, c) <= s.used;
    }
    forall c, g | g in Grants(s', c) && g in s'.table && s'.table[g] != g ensures AncestorGranted(s', c, g) {
      assert AncestorGranted(s, c, g);
      SurvivorsHang(s, id, c, g);
    }
  }

  /** Whatever clients and tools do, grants on sub-sessions keep a granted ancestor. */
  lemma StepKeepsGood(s: State, step: Step)
    requires Good(s)
    ensures Good(Next(s, step))
  {
    match step
    case CreateSession(client, id, project) =>
      if id !in s.used {
        InsertKeepsGood(s, id, id, project);
        GrantKeepsGood(Inserted(s, id, id, project), client, id);
      }
    case CreateBranch(client, source, id) =>
      if id !in s.used {
        InsertKeepsGood(s, id, id, ProjectOf(s, source));
        GrantKeepsGood(Inserted(s, id, id, ProjectOf(s, source)), client, id);
      }
    case CreateSubSession(parent, id, project) =>
      if id !in s.used && parent in s.table { InsertKeepsGood(s, id, parent, project); }
    case Attach(client, id, project) =>
      if MayAttach(s, client, id, project) { GrantKeepsGood(s, client, id); }
    case Delete(id, project) =>
      if id in s.table { DeleteKeepsGood(s, id); }
    case Disconnect(client) => DisconnectKeepsGood(s, client);
  }

  lemma DisconnectKeepsGood(s: State, client: string)
    requires Good(s)
    ensures Good(s.(grants := s.grants - {client}))
  {
    var s' := s.(grants := s.grants - {client});
    SameTable(s);
    forall c ensures Grants(s', c) == (if c == client then {} else Grants(s, c)) && Grants(s', c) <= s'.used {
      assert Grants(s, c) <= s.used;
    }
    forall c, g | g in Grants(s', c) && g in s'.table && s'.table[g] != g ensures AncestorGranted(s', c, g) {
      assert AncestorGranted(s, c, g);
      HangKept(s, s', c, g);
    }
  }

  ghost function Run(s: State, steps: seq<Step>): State
    decreases |steps|
  {
    if steps == [] then s else Run(Next(s, steps[0]), steps[1..])
  }

  lemma {:induction false} RunKeepsGood(s: State, steps: seq<Step>)
    requires Good(s)
    ensures Good(Run(s, steps))
    decreases |steps|
  {
    if steps != [] {
      StepKeepsGood(s, steps[0]);
      RunKeepsGood(Next(s, steps[0]), steps[1..]);
    }
  }

  // ----- what that means for access ------------------------------------------------------

  lemma NothingAboveRoot(table: map<Id, Id>, id: Id, n: nat, k: nat)
    requires IsRoot(table, Nth(table, id, n)) && Nth(table, id, k).Some?
    ensures k <= n
  {
    if k > n {
      NthPlus(table, id, n, k - n);
      NoNthOfRoot(table, Nth(table, id, n).value, k - n);
    }
  }

  lemma {:induction false} NoNthOfRoot(table: map<Id, Id>, root: Id, k: nat)
    requires k > 0 && root in table && table[root] == root
    ensures Nth(table, root, k).None?
  {
    if k > 1 { NoNthOfRoot(table, root, k - 1); }
  }

  lemma GrantedAncestorBelow(s: State, client: string, g: Id, n: nat) returns (a: Id, k: nat)
    requires Forest(s.table) && g in s.table && AncestorGranted(s, client, g) && IsRoot(s.table, Nth(s.table, g, n))
    ensures 0 < k <= n && a in Grants(s, client) && a in s.table && Nth(s.table, a, n - k) == Nth(s.table, g, n)
  {
    a :| a in Grants(s, client) && Ancestor(s.table, g, a);
    k :| k > 0 && Nth(s.table, g, k) == Some(a);
    NothingAboveRoot(s.table, g, n, k);
    NthPlus(s.table, g, k, n - k);
    SameTable(s);
    NthKept(s.table, s.table, g, k);
  }

  /** From a granted session up to the root, through granted ancestors. */
  lemma {:induction false} GrantedToRoot(s: State, client: string, g: Id, n: nat)
    requires Good(s) && g in Grants(s, client) && g in s.table && IsRoot(s.table, Nth(s.table, g, n))
    ensures Nth(s.table, g, n).value in Grants(s, client)
    decreases n
  {
    if s.table[g] == g {
      if n > 0 { NoNthOfRoot(s.table, g, n); }
    } else {
      assert AncestorGranted(s, client, g);
      var a, k := GrantedAncestorBelow(s, client, g, n);
      GrantedToRoot(s, client, a, n - k);
    }
  }

  lemma AccessFromGood(s: State, client: string, id: Id, n: nat)
    requires Good(s) && id in s.table && MayUse(s, client, id) && IsRoot(s.table, Nth(s.table, id, n))
    ensures Nth(s.table, id, n).value in Grants(s, client)
  {
    if id in Grants(s, client) {
      GrantedToRoot(s, client, id, n);
    } else {
      var a, k := GrantedAncestorBelow(s, client, id, n);
      GrantedToRoot(s, client, a, n - k);
    }
  }

  /** A client may use a session, and attach a sub-session, exactly if the root of its tree is granted
      to it; any root may be attached by who names its project. */
  lemma AccessIsRootAccess(s: State, client: string, id: Id, n: nat, project: string)
    requires Good(s) && id in s.table && IsRoot(s.table, Nth(s.table, id, n))
    ensures MayUse(s, client, id) <==> Nth(s.table, id, n).value in Grants(s, client)
    ensures MayAttach(s, client, id, project) <==>
            ProjectOf(s, id) == project && (s.table[id] == id || Nth(s.table, id, n).value in Grants(s, client))
  {
    var root := Nth(s.table, id, n).value;
    assert n == 0 ==> root == id;
    if root in Grants(s, client) && n > 0 {
      assert Ancestor(s.table, id, root);
    }
    if MayUse(s, client, id) {
      AccessFromGood(s, client, id, n);
    }
  }

  /** The grant on a root comes by creating it, by branching it off a session one may use, or by attaching
      it under its project, and goes when the client disconnects. */
  lemma RootGrantMoves(s: State, step: Step, client: string, r: Id)
    requires Good(s) && IsRoot(Next(s, step).table, Some(r))
    ensures r in Grants(Next(s, step), client) <==>
            || (r in Grants(s, client) && step != Disconnect(client))
            || (step.CreateSession? && step.client == client && step.id == r && r !in s.used)
            || (step.CreateBranch? && step.client == client && step.id == r && r !in s.used
                && step.source in s.table && MayUse(s, client, step.source))
            || (step.Attach? && step.client == client && step.id == r && r in s.table
                && ProjectOf(s, r) == step.project)
  {
    if step.Delete? && Next(s, step) != s {
      assert step.id in Doomed(s.table, step.id);
      assert Next(s, step) == Deleted(s, step.id);
    }
  }

  /** In every state the server can come to, every session has a root, and a client may use an
      existing session if and only if the root of its tree is granted to it. */
  lemma AccessComesFromRoot(steps: seq<Step>, client: string, id: Id, n: nat)
    requires id in Run(EMPTY, steps).table
    ensures
      var s := Run(EMPTY, steps);
      && Rooted(s.table, id)
      && (IsRoot(s.table, Nth(s.table, id, n)) ==>
            (MayUse(s, client, id) <==> Nth(s.table, id, n).value in Grants(s, client)))
  {
    var s := Run(EMPTY, steps);
    RunKeepsGood(EMPTY, steps);
    assert Rooted(s.table, id);
    if IsRoot(s.table, Nth(s.table, id, n)) {
      AccessIsRootAccess(s, client, id, n, "");
    }
  }
}
