/** The dashboard's aggregates: the four counters, the permissions-per-role bars, the
    permission and user-role histograms, the pie size breakpoints and the colour cycle. */
module Dashboard {

  import opened Seqs
  import opened Entities
  import AppStats

  /** The four counter cards, `users`, `roles`, `permissions` and `sessions`, are counted
      exactly as the shared context counts `totalUsers`, `activeRoles`, `totalPermissions`
      and `activeSessions`, so they are one definition here. */
  function BasicStats(users: seq<User>, roles: seq<Role>, permissions: seq<Permission>): (st: AppStats.Stats)
    ensures st.totalUsers == |users| && st.activeRoles == |roles| && st.totalPermissions == |permissions|
    ensures st.activeSessions == |Filter(users, IsActive)|
    ensures st.activeSessions <= st.totalUsers
  {
    AppStats.UpdateStats(users, roles, permissions)
  }

  datatype RoleBar = RoleBar(name: string, permissions: nat)

  /** `roleData`: one bar per role, in role order, as tall as its permission list. */
  function RoleBars(roles: seq<Role>): (bars: seq<RoleBar>)
    ensures |bars| == |roles|
    ensures forall i :: 0 <= i < |roles| ==> bars[i] == RoleBar(roles[i].name, |roles[i].permissions|)
  {
    Map(roles, (r: Role) => RoleBar(r.name, |r.permissions|))
  }

  /** One entry of a histogram: a key and how often it was counted. */
  datatype Slice = Slice(name: string, value: nat)

  /** Position of the entry for `key`, or `|h|` when there is none. */
  function Find(h: seq<Slice>, key: string): (k: nat)
    ensures k <= |h|
    ensures k < |h| ==> h[k].name == key
    ensures forall i :: 0 <= i < k ==> h[i].name != key
  {
    FirstIndex(h, (s: Slice) => s.name == key)
  }

  /** The count the histogram holds for `key` (`counts[key] || 0`). */
  function ValueOf(h: seq<Slice>, key: string): nat
  {
    var k := Find(h, key);
    if k < |h| then h[k].value else 0
  }

  function Values(h: seq<Slice>): seq<nat>
  {
    Map(h, (s: Slice) => s.value)
  }

  predicate DistinctNames(h: seq<Slice>)
  {
    forall i, j :: 0 <= i < j < |h| ==> h[i].name != h[j].name
  }

  predicate Positive(h: seq<Slice>)
  {
    forall i :: 0 <= i < |h| ==> h[i].value >= 1
  }

  lemma {:induction false} SumUpdate(xs: seq<nat>, k: nat, v: nat)
    requires k < |xs|
    ensures Sum(xs[k := v]) == Sum(xs) - xs[k] + v
    decreases xs
  {
    if k > 0 {
      SumUpdate(xs[1..], k - 1, v);
      assert xs[k := v][1..] == xs[1..][k - 1 := v];
    }
  }

  /** `counts[key] = (counts[key] || 0) + 1`: the key's entry grows by one, or a new entry
      with count 1 is appended after all existing ones. */
  function Bump(h: seq<Slice>, key: string): (r: seq<Slice>)
    ensures forall x :: ValueOf(r, x) == ValueOf(h, x) + (if x == key then 1 else 0)
    ensures Sum(Values(r)) == Sum(Values(h)) + 1
    ensures DistinctNames(h) ==> DistinctNames(r)
    ensures Positive(h) ==> Positive(r)
    ensures |r| >= |h| && forall i :: 0 <= i < |h| ==> r[i].name == h[i].name
  {
    var k := Find(h, key);
    if k < |h| then
      var r := h[k := Slice(key, h[k].value + 1)];
      assert Values(r) == Values(h)[k := h[k].value + 1];
      SumUpdate(Values(h), k, h[k].value + 1);
      forall x
        ensures Find(r, x) == Find(h, x)
      {
        FindAfterUpdate(h, k, key, h[k].value + 1, x);
      }
      r
    else
      var r := h + [Slice(key, 1)];
      assert Values(r) == Values(h) + [1];
      SumConcat(Values(h), [1]);
      forall x
        ensures ValueOf(r, x) == ValueOf(h, x) + (if x == key then 1 else 0)
      {
        FindAfterAppend(h, Slice(key, 1), x);
      }
      r
  }

  lemma {:induction false} FindAfterUpdate(h: seq<Slice>, k: nat, key: string, v: nat, x: string)
    requires k < |h| && h[k].name == key
    ensures Find(h[k := Slice(key, v)], x) == Find(h, x)
    decreases h
  {
    if h != [] && k > 0 && h[0].name != x {
      assert h[k := Slice(key, v)][1..] == h[1..][k - 1 := Slice(key, v)];
      FindAfterUpdate(h[1..], k - 1, key, v, x);
    }
  }

  lemma {:induction false} FindAfterAppend(h: seq<Slice>, s: Slice, x: string)
    ensures Find(h, x) < |h| ==> Find(h + [s], x) == Find(h, x)
    ensures Find(h, x) == |h| ==> Find(h + [s], x) == (if s.name == x then |h| else |h| + 1)
    decreases h
  {
    if h != [] {
      assert (h + [s])[1..] == h[1..] + [s];
      if h[0].name != x {
        FindAfterAppend(h[1..], s, x);
      }
    } else {
      assert [s][1..] == [];
    }
  }

  /** Counting keys in the order they come: names in order of first appearance. For every
      key the count is its number of occurrences, every count is at least one, names are
      distinct, and the counts add up to the number of keys. */
  function Histogram(keys: seq<string>): (h: seq<Slice>)
    ensures forall x :: ValueOf(h, x) == multiset(keys)[x]
    ensures Sum(Values(h)) == |keys|
    ensures DistinctNames(h)
    ensures Positive(h)
    decreases |keys|
  {
    if keys == [] then []
    else
      var init := keys[..|keys| - 1];
      assert keys == init + [keys[|keys| - 1]];
      Bump(Histogram(init), keys[|keys| - 1])
  }

  /** A histogram lists exactly the keys that were counted. */
  lemma HistogramNames(keys: seq<string>, x: string)
    ensures (exists i :: 0 <= i < |Histogram(keys)| && Histogram(keys)[i].name == x) <==> x in keys
  {
    var h := Histogram(keys);
    var k := Find(h, x);
    assert ValueOf(h, x) == multiset(keys)[x];
    if k < |h| {
      assert ValueOf(h, x) == h[k].value >= 1;
      assert x in multiset(keys);
      assert 0 <= k < |Histogram(keys)| && Histogram(keys)[k].name == x;
    } else {
      assert x !in multiset(keys);
      assert forall i :: 0 <= i < |h| ==> h[i].name != x;
    }
  }

  /** How often `x` is granted: its occurrences in each role's list, added up role by role. */
  function GrantCount(roles: seq<Role>, x: string): nat
  {
    if roles == [] then 0 else multiset(roles[0].permissions)[x] + GrantCount(roles[1..], x)
  }

  /** Every role's permission names, role after role. */
  function AllGrants(roles: seq<Role>): (names: seq<string>)
    ensures |names| == Sum(Map(roles, (r: Role) => |r.permissions|))
    ensures forall x :: multiset(names)[x] == GrantCount(roles, x)
  {
    if roles == [] then []
    else
      var lengths := Map(roles, (r: Role) => |r.permissions|);
      assert lengths[1..] == Map(roles[1..], (r: Role) => |r.permissions|);
      roles[0].permissions + AllGrants(roles[1..])
  }

  /** The permission pie: for each permission name, the number of roles' lists it
      appears in (counting repeats); the slices add up to the total of all list lengths. */
  function PermissionDistribution(roles: seq<Role>): (h: seq<Slice>)
    ensures forall x :: ValueOf(h, x) == multiset(AllGrants(roles))[x] == GrantCount(roles, x)
    ensures Sum(Values(h)) == Sum(Map(roles, (r: Role) => |r.permissions|))
    ensures DistinctNames(h) && Positive(h)
  {
    Histogram(AllGrants(roles))
  }

  /** The user-role pie: one slice per role name in use, counting its users. */
  function UserRoleDistribution(users: seq<User>): (h: seq<Slice>)
    ensures forall x :: ValueOf(h, x) == multiset(Map(users, (u: User) => u.role))[x]
    ensures Sum(Values(h)) == |users|
    ensures DistinctNames(h) && Positive(h)
  {
    Histogram(Map(users, (u: User) => u.role))
  }

  datatype PieSize = PieSize(innerRadius: nat, outerRadius: nat, labelOffset: nat)

  /** `getPieChartDimensions`: three sizes, switching at 380 and 768 pixels. */
  function PieDimensions(windowWidth: int): (d: PieSize)
    ensures d.innerRadius < d.outerRadius
    ensures windowWidth < 380 ==> d == PieSize(30, 50, 10)
    ensures 380 <= windowWidth < 768 ==> d == PieSize(40, 65, 15)
    ensures 768 <= windowWidth ==> d == PieSize(60, 100, 20)
  {
    if windowWidth < 380 then PieSize(30, 50, 10)
    else if windowWidth < 768 then PieSize(40, 65, 15)
    else PieSize(60, 100, 20)
  }

  /** A wider window never gets a smaller pie. */
  lemma PieGrowsWithWidth(w1: int, w2: int)
    requires w1 <= w2
    ensures PieDimensions(w1).outerRadius <= PieDimensions(w2).outerRadius
    ensures PieDimensions(w1).innerRadius <= PieDimensions(w2).innerRadius
  {
  }

  /** The twelve chart colours, in declaration order. */
  const PALETTE: seq<string> := ["#4F46E5", "#7C3AED", "#D946EF", "#06B6D4", "#F43F5E", "#F59E0B",
                                 "#10B981", "#0EA5E9", "#9333EA", "#14B8A6", "#F97316", "#84CC16"]

  /** `index % COLORS.length`: the colour of the `index`-th slice or bar. */
  function ColourIndex(index: nat): (k: nat)
    ensures k < |PALETTE|
    ensures index < |PALETTE| ==> k == index
  {
    index % |PALETTE|
  }

  /** The colours repeat with period twelve, and twelve neighbouring entries never share a
      colour. */
  lemma ColoursCycle(i: nat, j: nat)
    ensures ColourIndex(i + |PALETTE|) == ColourIndex(i)
    ensures i < j < i + |PALETTE| ==> ColourIndex(i) != ColourIndex(j)
  {
    assert |PALETTE| == 12;
    var qi, qj := i / 12, j / 12;
    assert i == 12 * qi + i % 12;
    assert j == 12 * qj + j % 12;
    assert i + 12 == 12 * (qi + 1) + i % 12;
  }
}
