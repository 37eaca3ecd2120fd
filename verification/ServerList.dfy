/**
 * The saved-server list of internal/client/config.go.  strings.EqualFold is
 * equality after a parameter `fold`; the slice is a backing array and a length.
 */
module ServerList {
  import opened Octets
  import opened Provision

  datatype Server = Server(name: string, uri: string)

  /** What the foreign code decides: the case folding, and which authorities url.Parse accepts. */
  datatype Env = Env(fold: string -> string, hierOk: string -> bool)

  predicate EqualFold(env: Env, a: string, b: string) { env.fold(a) == env.fold(b) }

  function Parse(env: Env, uri: string): Result<Profile, UriError> { ParseUri(uri, env.hierOk) }

  // ----- the list as a value

  datatype Store = Store(active: string, servers: seq<Server>)

  /** The position of the first server of that name at or after `i`; the length if there is none. */
  function Find(env: Env, servers: seq<Server>, name: string, i: nat): (k: nat)
    requires i <= |servers|
    ensures i <= k <= |servers|
    ensures k < |servers| ==> EqualFold(env, servers[k].name, name)
    ensures forall j :: i <= j < k ==> !EqualFold(env, servers[j].name, name)
    decreases |servers| - i
  {
    if i == |servers| || EqualFold(env, servers[i].name, name) then i else Find(env, servers, name, i + 1)
  }

  function NameFor(name: string, p: Profile): string {
    if name != [] then name else if p.name != [] then p.name else p.host
  }

  function AddStep(env: Env, s: Store, name: string, uri: string): Store {
    match Parse(env, uri)
    case Err(_) => s
    case Ok(p) =>
      var n := NameFor(name, p);
      var k := Find(env, s.servers, n, 0);
      if k < |s.servers| then s.(servers := s.servers[k := Server(s.servers[k].name, uri)])
      else Store(if s.active == [] then n else s.active, s.servers + [Server(n, uri)])
  }

  /** The servers not of that name, in their order. */
  function Others(env: Env, servers: seq<Server>, name: string): seq<Server> {
    if servers == [] then []
    else
      var rest := Others(env, servers[..|servers| - 1], name);
      var last := servers[|servers| - 1];
      if EqualFold(env, last.name, name) then rest else rest + [last]
  }

  function RemoveStep(env: Env, s: Store, name: string): Store {
    var kept := Others(env, s.servers, name);
    Store(if !EqualFold(env, s.active, name) then s.active else if kept != [] then kept[0].name else [], kept)
  }

  function ProfileOf(env: Env, s: Store, name: string): Option<Profile> {
    var n := if name == [] then s.active else name;
    if n == [] then None
    else
      var k := Find(env, s.servers, n, 0);
      if k == |s.servers| then None
      else match Parse(env, s.servers[k].uri) case Ok(p) => Some(p) case Err(_) => None
  }

  /** The controller's SetActive: the name must resolve, then it is stored as given. */
  function SetActiveStep(env: Env, s: Store, name: string): Store {
    if ProfileOf(env, s, name).Some? then s.(active := name) else s
  }

  lemma OthersNext(env: Env, servers: seq<Server>, i: nat, name: string)
    requires i < |servers|
    ensures Others(env, servers[..i + 1], name)
            == Others(env, servers[..i], name) + (if EqualFold(env, servers[i].name, name) then [] else [servers[i]])
  {
    assert servers[..i + 1][..i] == servers[..i];
  }

  // ----- the list as the code keeps it

  class Config {
    const env: Env
    var active: string
    var backing: array<Server>
    var count: nat

    ghost predicate Valid() reads this { count <= backing.Length }

    ghost function View(): Store
      requires Valid()
      reads this, backing
    {
      Store(active, backing[..count])
    }

    constructor (env: Env)
      ensures Valid() && fresh(backing) && this.env == env && View() == Store([], [])
    {
      this.env := env;
      active, backing, count := [], new Server[0], 0;
    }

    /** append: in place while there is room, else into a larger copy. */
    method Append(s: Server)
      requires Valid()
      modifies this`backing, this`count, backing
      ensures Valid() && (backing == old(backing) || fresh(backing))
      ensures backing[..count] == old(backing[..count]) + [s]
    {
      if count == backing.Length {
        var grown := new Server[2 * count + 1](_ => s);
        forall i | 0 <= i < count { grown[i] := backing[i]; }
        backing := grown;
      }
      backing[count] := s;
      count := count + 1;
    }

    method Add(name: string, uri: string) returns (ok: bool)
      requires Valid()
      modifies this, backing
      ensures Valid() && (backing == old(backing) || fresh(backing))
      ensures View() == AddStep(env, old(View()), name, uri)
      ensures ok <==> Parse(env, uri).Ok?
    {
      var parsed := Parse(env, uri);
      if parsed.Err? { return false; }
      var n := NameFor(name, parsed.value);
      ghost var before := backing[..count];
      var i := 0;
      while i < count
        invariant 0 <= i <= count && backing[..count] == before
        invariant Find(env, before, n, 0) == Find(env, before, n, i)
      {
        if EqualFold(env, backing[i].name, n) {
          backing[i] := Server(backing[i].name, uri);
          return true;
        }
        i := i + 1;
      }
      Append(Server(n, uri));
      if active == [] { active := n; }
      return true;
    }

    /** Compacts the list over its own backing array while ranging over it. */
    method Remove(name: string)
      requires Valid()
      modifies this`active, this`count, backing
      ensures Valid() && View() == RemoveStep(env, old(View()), name)
    {
      var n := count;
      ghost var before := backing[..n];
      var out, i := 0, 0;
      while i < n
        invariant 0 <= out <= i <= n == count == |before| && n <= backing.Length && active == old(active)
        invariant backing[..out] == Others(env, before[..i], name)
        invariant forall k :: i <= k < n ==> backing[k] == before[k]
      {
        var s := backing[i];
        OthersNext(env, before, i, name);
        if !EqualFold(env, s.name, name) {
          ghost var kept := backing[..out];
          backing[out] := s;
          assert backing[..out + 1] == kept + [s];
          out := out + 1;
        }
        i := i + 1;
      }
      assert before[..i] == before;
      count := out;
      assert backing[..count] == Others(env, before, name);
      assert count > 0 ==> backing[..count][0] == backing[0];
      if EqualFold(env, active, name) {
        active := [];
        if count > 0 { active := backing[0].name; }
      }
    }

    method Profile(name: string) returns (p: Option<Profile>)
      requires Valid()
      ensures p == ProfileOf(env, View(), name)
    {
      var n := if name == [] then active else name;
      if n == [] { return None; }
      var i := 0;
      while i < count
        invariant 0 <= i <= count
        invariant Find(env, backing[..count], n, 0) == Find(env, backing[..count], n, i)
      {
        if EqualFold(env, backing[i].name, n) {
          var r := Parse(env, backing[i].uri);
          return if r.Ok? then Some(r.value) else None;
        }
        i := i + 1;
      }
      return None;
    }

    method SetActive(name: string)
      requires Valid()
      modifies this`active
      ensures Valid() && View() == SetActiveStep(env, old(View()), name)
    {
      var p := Profile(name);
      if p.Some? { active := name; }
    }
  }

  // ----- what every run keeps

  ghost predicate NamesDistinct(env: Env, servers: seq<Server>) {
    forall i, j :: 0 <= i < j < |servers| ==> !EqualFold(env, servers[i].name, servers[j].name)
  }

  ghost predicate UrisParse(env: Env, servers: seq<Server>) {
    forall i :: 0 <= i < |servers| ==> Parse(env, servers[i].uri).Ok?
  }

  ghost predicate OnlyAt(env: Env, servers: seq<Server>, name: string, i: nat) {
    forall j :: 0 <= j < |servers| ==> (EqualFold(env, servers[j].name, name) <==> j == i)
  }

  /** Exactly one stored server answers to `name`. */
  ghost predicate ResolvesOnce(env: Env, servers: seq<Server>, name: string) {
    exists i :: 0 <= i < |servers| && OnlyAt(env, servers, name, i)
  }

  ghost predicate Good(env: Env, s: Store) {
    && NamesDistinct(env, s.servers) && UrisParse(env, s.servers)
    && (s.active != [] ==> ResolvesOnce(env, s.servers, s.active))
  }

  lemma ResolvesAt(env: Env, servers: seq<Server>, name: string, i: nat)
    requires NamesDistinct(env, servers) && i < |servers| && EqualFold(env, servers[i].name, name)
    ensures ResolvesOnce(env, servers, name)
  {
    forall j | 0 <= j < |servers| ensures EqualFold(env, servers[j].name, name) <==> j == i {
      if j < i { assert !EqualFold(env, servers[j].name, servers[i].name); }
      if i < j { assert !EqualFold(env, servers[i].name, servers[j].name); }
    }
    assert OnlyAt(env, servers, name, i);
  }

  /** Where the servers of other names stand. */
  function Kept(env: Env, servers: seq<Server>, name: string): seq<nat> {
    if servers == [] then []
    else
      var n := |servers| - 1;
      Kept(env, servers[..n], name) + (if EqualFold(env, servers[n].name, name) then [] else [n])
  }

  lemma {:induction false} KeptExactly(env: Env, servers: seq<Server>, name: string)
    ensures forall i :: i in Kept(env, servers, name) <==> 0 <= i < |servers| && !EqualFold(env, servers[i].name, name)
  {
    if servers != [] {
      var n := |servers| - 1;
      KeptExactly(env, servers[..n], name);
      assert forall i :: 0 <= i < n ==> servers[..n][i] == servers[i];
    }
  }

  lemma {:induction false} KeptPicks(env: Env, servers: seq<Server>, name: string)
    ensures Picks(Others(env, servers, name), servers, Kept(env, servers, name))
  {
    if servers != [] {
      var front := servers[..|servers| - 1];
      KeptPicks(env, front, name);
      var idx := Kept(env, front, name);
      assert forall i :: 0 <= i < |idx| ==> idx[i] < |front| && servers[idx[i]] == front[idx[i]];
    }
  }

  /** The filter keeps exactly the servers of other names, each once and in order. */
  lemma OthersFilter(env: Env, servers: seq<Server>, name: string) returns (idx: seq<nat>)
    ensures Picks(Others(env, servers, name), servers, idx)
    ensures forall i :: 0 <= i < |servers| ==> (i in idx <==> !EqualFold(env, servers[i].name, name))
  {
    idx := Kept(env, servers, name);
    KeptPicks(env, servers, name);
    KeptExactly(env, servers, name);
  }

  lemma ReplaceKeepsGood(env: Env, s: Store, k: nat, uri: string)
    requires Good(env, s) && k < |s.servers| && Parse(env, uri).Ok?
    ensures Good(env, s.(servers := s.servers[k := Server(s.servers[k].name, uri)]))
  {
    var servers := s.servers[k := Server(s.servers[k].name, uri)];
    assert forall i :: 0 <= i < |servers| ==> servers[i].name == s.servers[i].name;
    if s.active != [] {
      var i :| 0 <= i < |s.servers| && OnlyAt(env, s.servers, s.active, i);
      assert OnlyAt(env, servers, s.active, i);
    }
  }

  lemma AppendKeepsGood(env: Env, s: Store, n: string, uri: string)
    requires Good(env, s) && Parse(env, uri).Ok?
    requires forall i :: 0 <= i < |s.servers| ==> !EqualFold(env, s.servers[i].name, n)
    ensures Good(env, Store(if s.active == [] then n else s.active, s.servers + [Server(n, uri)]))
  {
    var servers := s.servers + [Server(n, uri)];
    assert NamesDistinct(env, servers);
    if s.active == [] {
      ResolvesAt(env, servers, n, |s.servers|);
    } else {
      var i :| 0 <= i < |s.servers| && OnlyAt(env, s.servers, s.active, i);
      assert EqualFold(env, s.servers[i].name, s.active);
      ResolvesAt(env, servers, s.active, i);
    }
  }

  lemma AddKeepsGood(env: Env, s: Store, name: string, uri: string)
    requires Good(env, s)
    ensures Good(env, AddStep(env, s, name, uri))
  {
    match Parse(env, uri)
    case Err(_) =>
    case Ok(p) =>
      var n := NameFor(name, p);
      var k := Find(env, s.servers, n, 0);
      if k < |s.servers| { ReplaceKeepsGood(env, s, k, uri); } else { AppendKeepsGood(env, s, n, uri); }
  }

  lemma PickedStayGood(env: Env, servers: seq<Server>, kept: seq<Server>, idx: seq<nat>)
    requires Picks(kept, servers, idx) && NamesDistinct(env, servers) && UrisParse(env, servers)
    ensures NamesDistinct(env, kept) && UrisParse(env, kept)
  {
    forall i, j | 0 <= i < j < |kept| ensures !EqualFold(env, kept[i].name, kept[j].name) {
      assert idx[i] < idx[j];
      assert !EqualFold(env, servers[idx[i]].name, servers[idx[j]].name);
    }
  }

  lemma RemoveKeepsGood(env: Env, s: Store, name: string)
    requires Good(env, s)
    ensures Good(env, RemoveStep(env, s, name))
  {
    var kept := Others(env, s.servers, name);
    var idx := OthersFilter(env, s.servers, name);
    PickedStayGood(env, s.servers, kept, idx);
    if !EqualFold(env, s.active, name) {
      if s.active != [] { ActiveKept(env, s, name, kept, idx); }
    } else if kept != [] {
      ResolvesAt(env, kept, kept[0].name, 0);
    }
  }

  lemma ActiveKept(env: Env, s: Store, name: string, kept: seq<Server>, idx: seq<nat>)
    requires Good(env, s) && s.active != [] && !EqualFold(env, s.active, name)
    requires Picks(kept, s.servers, idx) && NamesDistinct(env, kept)
    requires forall i :: 0 <= i < |s.servers| ==> (i in idx <==> !EqualFold(env, s.servers[i].name, name))
    ensures ResolvesOnce(env, kept, s.active)
  {
    var i :| 0 <= i < |s.servers| && OnlyAt(env, s.servers, s.active, i);
    assert EqualFold(env, s.servers[i].name, s.active);
    assert i in idx;
    var k :| 0 <= k < |idx| && idx[k] == i;
    ResolvesAt(env, kept, s.active, k);
  }

  lemma SetActiveKeepsGood(env: Env, s: Store, name: string)
    requires Good(env, s)
    ensures Good(env, SetActiveStep(env, s, name))
  {
    var s' := SetActiveStep(env, s, name);
    if s'.active != [] && ProfileOf(env, s, name).Some? {
      ResolvesAt(env, s.servers, name, Find(env, s.servers, name, 0));
    }
  }

  datatype Op = Add(name: string, uri: string) | Remove(name: string) | SetActive(name: string)

  function Apply(env: Env, s: Store, op: Op): Store {
    match op
    case Add(n, u) => AddStep(env, s, n, u)
    case Remove(n) => RemoveStep(env, s, n)
    case SetActive(n) => SetActiveStep(env, s, n)
  }

  function Run(env: Env, ops: seq<Op>): Store {
    if ops == [] then Store([], []) else Apply(env, Run(env, ops[..|ops| - 1]), ops[|ops| - 1])
  }

  /**
   * After every run from an empty list: names differ under folding, every stored
   * URI parses, and the active name is empty or resolves to exactly one server.
   */
  lemma {:induction false} EveryRunGood(env: Env, ops: seq<Op>)
    ensures Good(env, Run(env, ops))
  {
    if ops != [] {
      var s := Run(env, ops[..|ops| - 1]);
      EveryRunGood(env, ops[..|ops| - 1]);
      match ops[|ops| - 1]
      case Add(n, u) => AddKeepsGood(env, s, n, u);
      case Remove(n) => RemoveKeepsGood(env, s, n);
      case SetActive(n) => SetActiveKeepsGood(env, s, n);
    }
  }

  lemma ActiveFound(env: Env, s: Store)
    requires Good(env, s)
    ensures ProfileOf(env, s, []).Some? <==> s.active != []
  {
    if s.active != [] {
      var i :| 0 <= i < |s.servers| && OnlyAt(env, s.servers, s.active, i);
      var k := Find(env, s.servers, s.active, 0);
      assert EqualFold(env, s.servers[i].name, s.active);
      assert k < |s.servers|;
    }
  }

  /** After every run, the default profile resolves exactly when a server is active. */
  lemma ActiveResolves(env: Env, ops: seq<Op>)
    ensures ProfileOf(env, Run(env, ops), []).Some? <==> Run(env, ops).active != []
  {
    EveryRunGood(env, ops);
    ActiveFound(env, Run(env, ops));
  }

  // ----- laws between the operations, for every list

  /** The profile of the first server of a given name, by position. */
  lemma ProfileAt(env: Env, s: Store, name: string, k: nat)
    requires name != [] && k < |s.servers| && EqualFold(env, s.servers[k].name, name)
    requires forall j :: 0 <= j < k ==> !EqualFold(env, s.servers[j].name, name)
    ensures ProfileOf(env, s, name) == match Parse(env, s.servers[k].uri) case Ok(p) => Some(p) case Err(_) => None
  {
    assert Find(env, s.servers, name, 0) == k;
  }

  lemma ProfileMissing(env: Env, s: Store, name: string)
    requires forall j :: 0 <= j < |s.servers| ==> !EqualFold(env, s.servers[j].name, name)
    ensures name != [] ==> ProfileOf(env, s, name) == None
  {
    assert Find(env, s.servers, name, 0) == |s.servers|;
  }

  /** The same names in the same places, and the same text under this one: it resolves as before. */
  lemma ResolvesSame(env: Env, s: Store, s': Store, name: string)
    requires name != [] && |s.servers| <= |s'.servers|
    requires forall i :: 0 <= i < |s.servers| ==> s'.servers[i].name == s.servers[i].name
    requires forall i :: 0 <= i < |s.servers| && EqualFold(env, s.servers[i].name, name)
               ==> s'.servers[i] == s.servers[i]
    requires forall i :: |s.servers| <= i < |s'.servers| ==> !EqualFold(env, s'.servers[i].name, name)
    ensures ProfileOf(env, s', name) == ProfileOf(env, s, name)
  {
    var k := Find(env, s.servers, name, 0);
    if k < |s.servers| {
      ProfileAt(env, s, name, k);
      ProfileAt(env, s', name, k);
    } else {
      ProfileMissing(env, s, name);
      ProfileMissing(env, s', name);
    }
  }

  /**
   * After an accepted Add, the name given (else the label, else the host) resolves to the
   * URI's profile, every other name resolves as before, and stored names and order stay.
   */
  lemma AddThenProfile(env: Env, s: Store, name: string, uri: string, other: string)
    requires Parse(env, uri).Ok?
    ensures var p := Parse(env, uri).value;
            var n := if name != "" then name else if p.name != "" then p.name else p.host;
            var s' := AddStep(env, s, name, uri);
            && ProfileOf(env, s', n) == Some(p)
            && (other != "" && !EqualFold(env, other, n) ==> ProfileOf(env, s', other) == ProfileOf(env, s, other))
            && |s.servers| <= |s'.servers| <= |s.servers| + 1
            && (forall i :: 0 <= i < |s.servers| ==> s'.servers[i].name == s.servers[i].name)
  {
    var p := Parse(env, uri).value;
    ParsedComplete(uri, env.hierOk);
    var n, s' := NameFor(name, p), AddStep(env, s, name, uri);
    var k := Find(env, s.servers, n, 0);
    assert s'.servers[k].uri == uri && EqualFold(env, s'.servers[k].name, n);
    ProfileAt(env, s', n, k);
    if other != "" && !EqualFold(env, other, n) { ResolvesSame(env, s, s', other); }
  }

  /** The first server becomes active; a later one does not change which is, and a bad URI changes nothing. */
  lemma AddThenActive(env: Env, s: Store, name: string, uri: string)
    ensures Parse(env, uri).Err? ==> AddStep(env, s, name, uri) == s
    ensures s.active != "" ==> AddStep(env, s, name, uri).active == s.active
    ensures Parse(env, uri).Ok? && s == Store("", []) ==>
              ProfileOf(env, AddStep(env, s, name, uri), "") == Some(Parse(env, uri).value)
  {
    if Parse(env, uri).Ok? && s == Store("", []) {
      var p := Parse(env, uri).value;
      ParsedComplete(uri, env.hierOk);
      AddThenProfile(env, s, name, uri, "");
    }
  }

  /** In a filtered list the first server of a kept name is the one that was first before. */
  lemma FirstKept(env: Env, s: Store, name: string, other: string, k: nat) returns (j: nat)
    requires k < |s.servers| && EqualFold(env, s.servers[k].name, other) && !EqualFold(env, other, name)
    requires forall i :: 0 <= i < k ==> !EqualFold(env, s.servers[i].name, other)
    ensures var kept := Others(env, s.servers, name);
            && j < |kept| && kept[j] == s.servers[k]
            && forall i :: 0 <= i < j ==> !EqualFold(env, kept[i].name, other)
  {
    var idx := OthersFilter(env, s.servers, name);
    assert k in idx;
    j :| 0 <= j < |idx| && idx[j] == k;
    var kept := Others(env, s.servers, name);
    forall i | 0 <= i < j ensures !EqualFold(env, kept[i].name, other) { assert idx[i] < idx[j]; }
  }

  /** After Remove, the name resolves to nothing and every other name resolves as before. */
  lemma RemoveThenProfile(env: Env, s: Store, name: string, other: string)
    ensures name != "" ==> ProfileOf(env, RemoveStep(env, s, name), name) == None
    ensures other != "" && !EqualFold(env, other, name) ==>
              ProfileOf(env, RemoveStep(env, s, name), other) == ProfileOf(env, s, other)
  {
    var s' := RemoveStep(env, s, name);
    var idx := OthersFilter(env, s.servers, name);
    forall j | 0 <= j < |s'.servers| ensures !EqualFold(env, s'.servers[j].name, name) { assert idx[j] in idx; }
    ProfileMissing(env, s', name);
    if other != "" && !EqualFold(env, other, name) {
      var k := Find(env, s.servers, other, 0);
      if k < |s.servers| {
        var j := FirstKept(env, s, name, other, k);
        ProfileAt(env, s, other, k);
        ProfileAt(env, s', other, j);
      } else {
        ProfileMissing(env, s, other);
        forall j | 0 <= j < |s'.servers| ensures !EqualFold(env, s'.servers[j].name, other) {
          assert idx[j] < |s.servers|;
        }
        ProfileMissing(env, s', other);
      }
    }
  }

  /** Removing the active server makes the first remaining one active; removing another leaves it. */
  lemma RemoveThenActive(env: Env, s: Store, name: string)
    ensures var s' := RemoveStep(env, s, name);
            s'.active == if !EqualFold(env, s.active, name) then s.active
                         else if s'.servers == [] then "" else s'.servers[0].name
  {
  }

  /** After SetActive of a name that resolves, that is the default profile; the empty name switches it off. */
  lemma SetActiveThenProfile(env: Env, s: Store, name: string, other: string)
    ensures var s' := SetActiveStep(env, s, name);
            && s'.servers == s.servers
            && (ProfileOf(env, s, name).None? ==> s' == s)
            && (ProfileOf(env, s, name).Some? ==> s'.active == name)
            && (ProfileOf(env, s, name).Some? && name != "" ==> ProfileOf(env, s', "") == ProfileOf(env, s, name))
            && (ProfileOf(env, s, name).Some? && name == "" ==> ProfileOf(env, s', "") == None)
            && (other != "" ==> ProfileOf(env, s', other) == ProfileOf(env, s, other))
  {
  }
}
