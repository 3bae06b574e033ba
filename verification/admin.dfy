/** The administration helpers: the transitive closure of a user's
    subordinates along `parent_user` links, the user set an administrator
    may see, and the choice of client address recorded in the audit log. */
module Admin {
  import opened Wrappers
  import Text

  /** A user and the `parent_user` of its profile; `None` when there is no
      parent (or no profile, which the lookup by profile never matches). */
  datatype Member = Member(id: nat, parent: Option<nat>)

  /** `c` is a direct subordinate of `u`: a stored user whose parent is `u`. */
  predicate Child(users: seq<Member>, u: nat, c: nat) {
    exists k :: 0 <= k < |users| && users[k].id == c && users[k].parent == Some(u)
  }

  /** `filter(profile__parent_user_id=u).values_list('id')`, in store order. */
  function Children(users: seq<Member>, u: nat): (r: seq<nat>)
    ensures forall c :: c in r <==> Child(users, u, c)
  {
    if |users| == 0 then []
    else
      var rest := Children(users[1..], u);
      assert forall c :: Child(users, u, c) <==> (users[0].id == c && users[0].parent == Some(u)) || Child(users[1..], u, c) by {
        forall c ensures Child(users, u, c) <==> (users[0].id == c && users[0].parent == Some(u)) || Child(users[1..], u, c) {
          if Child(users, u, c) {
            var k :| 0 <= k < |users| && users[k].id == c && users[k].parent == Some(u);
            if k > 0 { assert users[1..][k - 1] == users[k]; }
          }
          if Child(users[1..], u, c) {
            var k :| 0 <= k < |users[1..]| && users[1..][k].id == c && users[1..][k].parent == Some(u);
            assert users[k + 1] == users[1..][k];
          }
        }
      }
      if users[0].parent == Some(u) then [users[0].id] + rest else rest
  }

  /** The reference relation: `x` lies `n >= 1` links below `u`. */
  ghost predicate Below(users: seq<Member>, u: nat, x: nat, n: nat)
    decreases n
  {
    if n == 0 then false
    else if n == 1 then Child(users, u, x)
    else exists c :: Child(users, u, c) && Below(users, c, x, n - 1)
  }

  /** `x` is a direct or indirect subordinate of `u`. */
  ghost predicate Subordinate(users: seq<Member>, u: nat, x: nat) {
    exists n :: Below(users, u, x, n)
  }

  /** The inner `get_subordinates(u)`: every direct subordinate is added
      and then explored in turn. The recursion has no visited set, so on a
      cycle it never returns; `fuel` bounds its depth, and `None` is the
      recursion giving up. */
  function Walk(users: seq<Member>, u: nat, fuel: nat): (r: Option<set<nat>>)
    decreases fuel, 0, 0
  {
    if fuel == 0 then None else WalkAll(users, Children(users, u), fuel - 1)
  }

  /** The loop over the direct subordinates. */
  function WalkAll(users: seq<Member>, subs: seq<nat>, fuel: nat): (r: Option<set<nat>>)
    decreases fuel, 1, |subs|
  {
    if |subs| == 0 then Some({})
    else match Walk(users, subs[0], fuel)
      case None => None
      case Some(below) =>
        match WalkAll(users, subs[1..], fuel)
        case None => None
        case Some(others) => Some({subs[0]} + below + others)
  }

  /** What the loop collects: each listed subordinate and everything its
      own walk collects. */
  lemma {:induction false} WalkAllCollects(users: seq<Member>, subs: seq<nat>, fuel: nat, i: nat)
    requires WalkAll(users, subs, fuel).Some? && i < |subs|
    ensures subs[i] in WalkAll(users, subs, fuel).value
    ensures Walk(users, subs[i], fuel).Some?
    ensures Walk(users, subs[i], fuel).value <= WalkAll(users, subs, fuel).value
    decreases |subs|
  {
    if i > 0 {
      WalkAllCollects(users, subs[1..], fuel, i - 1);
      assert subs[1..][i - 1] == subs[i];
    }
  }

  /** Nothing else is collected. */
  lemma {:induction false} WalkAllOnlyCollects(users: seq<Member>, subs: seq<nat>, fuel: nat, x: nat)
    requires WalkAll(users, subs, fuel).Some? && x in WalkAll(users, subs, fuel).value
    ensures exists i :: 0 <= i < |subs| && (x == subs[i] || (Walk(users, subs[i], fuel).Some? && x in Walk(users, subs[i], fuel).value))
    decreases |subs|
  {
    if x != subs[0] && x !in Walk(users, subs[0], fuel).value {
      WalkAllOnlyCollects(users, subs[1..], fuel, x);
      var i :| 0 <= i < |subs[1..]| && (x == subs[1..][i] || (Walk(users, subs[1..][i], fuel).Some? && x in Walk(users, subs[1..][i], fuel).value));
      assert subs[1..][i] == subs[i + 1];
    }
  }

  /** Soundness: the walk collects only subordinates of `u`. */
  lemma {:induction false} WalkIsSound(users: seq<Member>, u: nat, fuel: nat, x: nat)
    requires Walk(users, u, fuel).Some? && x in Walk(users, u, fuel).value
    ensures Subordinate(users, u, x)
    decreases fuel
  {
    var subs := Children(users, u);
    WalkAllOnlyCollects(users, subs, fuel - 1, x);
    var i :| 0 <= i < |subs| && (x == subs[i] || (Walk(users, subs[i], fuel - 1).Some? && x in Walk(users, subs[i], fuel - 1).value));
    var c := subs[i];
    assert Child(users, u, c);
    if x == c {
      assert Below(users, u, x, 1);
    } else {
      WalkAllCollects(users, subs, fuel - 1, i);
      WalkIsSound(users, c, fuel - 1, x);
      var n: nat :| Below(users, c, x, n);
      assert Below(users, u, x, n + 1);
    }
  }

  /** Completeness: a walk that returns has collected every subordinate
      of `u`, at any depth. */
  lemma {:induction false} WalkIsComplete(users: seq<Member>, u: nat, fuel: nat, x: nat, n: nat)
    requires Walk(users, u, fuel).Some? && Below(users, u, x, n)
    ensures x in Walk(users, u, fuel).value
    decreases n
  {
    var subs := Children(users, u);
    if n == 1 {
      var i :| 0 <= i < |subs| && subs[i] == x;
      WalkAllCollects(users, subs, fuel - 1, i);
    } else {
      var c :| Child(users, u, c) && Below(users, c, x, n - 1);
      var i :| 0 <= i < |subs| && subs[i] == c;
      WalkAllCollects(users, subs, fuel - 1, i);
      WalkIsComplete(users, c, fuel - 1, x, n - 1);
    }
  }

  /** A rank that strictly decreases along every link down: the parent
      relation is acyclic. */
  predicate Ranked(users: seq<Member>, rank: nat -> nat) {
    forall k :: 0 <= k < |users| && users[k].parent.Some? ==> rank(users[k].id) < rank(users[k].parent.value)
  }

  /** Under an acyclic parent relation the walk returns once it may
      recurse as deep as the rank of its start. */
  lemma {:induction false} WalkTerminates(users: seq<Member>, u: nat, fuel: nat, rank: nat -> nat)
    requires Ranked(users, rank) && fuel > rank(u)
    ensures Walk(users, u, fuel).Some?
    decreases fuel, 0, 0
  {
    WalkAllTerminates(users, u, Children(users, u), fuel - 1, rank);
  }

  lemma {:induction false} WalkAllTerminates(users: seq<Member>, u: nat, subs: seq<nat>, fuel: nat, rank: nat -> nat)
    requires Ranked(users, rank) && fuel >= rank(u)
    requires forall i :: 0 <= i < |subs| ==> Child(users, u, subs[i])
    ensures WalkAll(users, subs, fuel).Some?
    decreases fuel, 1, |subs|
  {
    if |subs| > 0 {
      assert Child(users, u, subs[0]);
      var k :| 0 <= k < |users| && users[k].id == subs[0] && users[k].parent == Some(u);
      assert rank(subs[0]) < rank(u);
      WalkTerminates(users, subs[0], fuel, rank);
      assert forall i :: 0 <= i < |subs[1..]| ==> Child(users, u, subs[1..][i]) by {
        forall i | 0 <= i < |subs[1..]| ensures Child(users, u, subs[1..][i]) {
          assert subs[1..][i] == subs[i + 1];
        }
      }
      WalkAllTerminates(users, u, subs[1..], fuel, rank);
    }
  }

  /** Every subordinate ranks strictly below its superior. */
  lemma {:induction false} BelowRanksLower(users: seq<Member>, u: nat, x: nat, n: nat, rank: nat -> nat)
    requires Ranked(users, rank) && Below(users, u, x, n)
    ensures rank(x) < rank(u)
    decreases n
  {
    if n == 1 {
      var k :| 0 <= k < |users| && users[k].id == x && users[k].parent == Some(u);
    } else {
      var c :| Child(users, u, c) && Below(users, c, x, n - 1);
      var k :| 0 <= k < |users| && users[k].id == c && users[k].parent == Some(u);
      BelowRanksLower(users, c, x, n - 1, rank);
    }
  }

  /** A user on a cycle of `parent_user` links never finishes the walk:
      whatever the depth allowed, the recursion runs out. */
  lemma {:induction false} CycleNeverReturns(users: seq<Member>, u: nat, n: nat, fuel: nat)
    requires Below(users, u, u, n)
    ensures Walk(users, u, fuel).None?
    decreases fuel
  {
    if Walk(users, u, fuel).Some? {
      var sub := WalkDeeper(users, u, u, n, fuel);
      CycleNeverReturns(users, u, n, sub);
    }
  }

  /** A walk that returns reaches `x`, `n` links down, with a walk of less
      depth that also returns. */
  lemma {:induction false} WalkDeeper(users: seq<Member>, u: nat, x: nat, n: nat, fuel: nat) returns (sub: nat)
    requires Walk(users, u, fuel).Some? && Below(users, u, x, n)
    ensures sub < fuel && Walk(users, x, sub).Some?
    decreases n
  {
    var subs := Children(users, u);
    if n == 1 {
      var i :| 0 <= i < |subs| && subs[i] == x;
      WalkAllCollects(users, subs, fuel - 1, i);
      sub := fuel - 1;
    } else {
      var c :| Child(users, u, c) && Below(users, c, x, n - 1);
      var i :| 0 <= i < |subs| && subs[i] == c;
      WalkAllCollects(users, subs, fuel - 1, i);
      sub := WalkDeeper(users, c, x, n - 1, fuel - 1);
    }
  }

  /** `get_subordinate_user_ids(user)`: the set of collected ids (the list
      the source returns holds each of them once, in no stated order). */
  function SubordinateIds(users: seq<Member>, u: nat, fuel: nat): (r: Option<set<nat>>)
    ensures r.Some? ==> forall x :: x in r.value ==> Subordinate(users, u, x)
  {
    var r := Walk(users, u, fuel);
    assert r.Some? ==> forall x :: x in r.value ==> Subordinate(users, u, x) by {
      if r.Some? {
        forall x | x in r.value ensures Subordinate(users, u, x) {
          WalkIsSound(users, u, fuel, x);
        }
      }
    }
    r
  }

  /** With an acyclic parent relation the ids are exactly the subordinates
      of `u`, and `u` is not one of them. */
  lemma SubordinatesExactly(users: seq<Member>, u: nat, fuel: nat, rank: nat -> nat)
    requires Ranked(users, rank) && fuel > rank(u)
    ensures SubordinateIds(users, u, fuel).Some?
    ensures forall x :: x in SubordinateIds(users, u, fuel).value <==> Subordinate(users, u, x)
    ensures u !in SubordinateIds(users, u, fuel).value
  {
    WalkTerminates(users, u, fuel, rank);
    var r := SubordinateIds(users, u, fuel).value;
    forall x | Subordinate(users, u, x) ensures x in r {
      var n: nat :| Below(users, u, x, n);
      WalkIsComplete(users, u, fuel, x, n);
    }
    if u in r {
      var n: nat :| Below(users, u, u, n);
      BelowRanksLower(users, u, u, n, rank);
    }
  }

  /** `get_user_and_subordinates_queryset(user)`: the stored users whose
      id is the user's own or a subordinate's, in store order. */
  function UserAndSubordinates(users: seq<Member>, u: nat, fuel: nat): (r: Option<seq<Member>>)
    ensures r.Some? <==> SubordinateIds(users, u, fuel).Some?
    ensures r.Some? ==> forall m :: m in r.value <==>
              m in users && (m.id == u || m.id in SubordinateIds(users, u, fuel).value)
  {
    match SubordinateIds(users, u, fuel)
    case None => None
    case Some(ids) => Some(WithIds(users, {u} + ids))
  }

  /** `filter(id__in=ids)`. */
  function WithIds(users: seq<Member>, ids: set<nat>): (r: seq<Member>)
    ensures forall m :: m in r <==> m in users && m.id in ids
  {
    if |users| == 0 then []
    else
      var rest := WithIds(users[1..], ids);
      assert forall m :: m in users <==> m == users[0] || m in users[1..] by {
        assert users == [users[0]] + users[1..];
      }
      if users[0].id in ids then [users[0]] + rest else rest
  }

  /** The request headers the source reads, from `request.META`. */
  type Meta = map<string, string>

  /** `get_client_ip(request)`: the first comma-separated element of a
      non-empty `X-Forwarded-For`, stripped; otherwise `REMOTE_ADDR`, which
      may be absent. */
  function ClientIp(meta: Meta): (r: Option<string>)
    ensures ("HTTP_X_FORWARDED_FOR" !in meta || meta["HTTP_X_FORWARDED_FOR"] == "") ==>
              r == (if "REMOTE_ADDR" in meta then Some(meta["REMOTE_ADDR"]) else None)
    ensures "HTTP_X_FORWARDED_FOR" in meta && meta["HTTP_X_FORWARDED_FOR"] != "" ==>
              r.Some? && ',' !in r.value
  {
    if "HTTP_X_FORWARDED_FOR" in meta && meta["HTTP_X_FORWARDED_FOR"] != "" then
      var first := Text.Split(meta["HTTP_X_FORWARDED_FOR"], ',')[0];
      Some(Text.Strip(first))
    else if "REMOTE_ADDR" in meta then Some(meta["REMOTE_ADDR"])
    else None
  }

  /** A forwarded header holding one client address, or a chain
      `client, proxy…`, yields the client, stripped, and ignores the
      proxies and `REMOTE_ADDR`. */
  lemma ForwardedClientWins(meta: Meta, client: string, proxies: string)
    requires ',' !in client
    requires "HTTP_X_FORWARDED_FOR" in meta
    requires meta["HTTP_X_FORWARDED_FOR"] == client + "," + proxies
             || (meta["HTTP_X_FORWARDED_FOR"] == client && client != "")
    ensures ClientIp(meta) == Some(Text.Strip(client))
  {
    Text.SplitFree(client, ',');
    if meta["HTTP_X_FORWARDED_FOR"] == client + "," + proxies {
      Text.SplitAppend(client, ',', proxies);
      assert client + "," + proxies == client + [','] + proxies;
    }
  }

  /** The address `create_audit_log` records: the one given, else the
      request's client address, else none. */
  function AuditIp(given: Option<string>, request: Option<Meta>): (r: Option<string>)
    ensures given.Some? ==> r == given
    ensures given.None? && request.None? ==> r.None?
    ensures given.None? && request.Some? ==> r == ClientIp(request.value)
  {
    if given.Some? then given
    else if request.Some? then ClientIp(request.value)
    else None
  }
}
