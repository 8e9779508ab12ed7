/**
  The mock user-management back end: the managed-user record, the query engine
  that filters, searches, sorts and pages the user table, lookup by id, and the
  simulated admin actions (admit, revoke, promote, block, delete).
 */
module UserManagement {
  import opened Wrappers
  import opened Text
  import opened Seqs

  // ---------------------------------------------------------------------------
  // Data model
  // ---------------------------------------------------------------------------

  datatype Status = Pending | Active | Inactive | Blocked
  datatype Role = User | Admin | SuperAdmin

  function StatusName(s: Status): string {
    match s
    case Pending => "pending"
    case Active => "active"
    case Inactive => "inactive"
    case Blocked => "blocked"
  }

  function RoleName(r: Role): string {
    match r
    case User => "user"
    case Admin => "admin"
    case SuperAdmin => "super_admin"
  }

  datatype Documents = Documents(nationalId: Option<string>, selfie: Option<string>)

  datatype ManagedUser = ManagedUser(
    id: string,
    name: string,
    email: string,
    phone: Option<string>,
    status: Status,
    role: Role,
    joinedAt: string,
    lastActive: Option<string>,
    completedOpportunities: Option<nat>,
    totalHours: Option<nat>,
    nationalIdVerified: Option<bool>,
    notes: Option<string>,
    documents: Option<Documents>)

  datatype ActionResponse = ActionResponse(success: bool, message: string, user: Option<ManagedUser>)

  datatype SortOrder = Asc | Desc

  /** The query parameters; every one of them may be absent. */
  datatype UserQuery = UserQuery(
    status: Option<Status>,
    role: Option<Role>,
    search: Option<string>,
    sortBy: Option<string>,
    sortOrder: Option<SortOrder>,
    page: Option<int>,
    pageSize: Option<int>)

  const NoQuery := UserQuery(None, None, None, None, None, None, None)

  // ---------------------------------------------------------------------------
  // Selection: the status, role and search filters
  // ---------------------------------------------------------------------------

  /** The search test: name or email contain the query ignoring case, or the phone contains it verbatim. */
  predicate SearchHit(u: ManagedUser, search: string) {
    Contains(LowerStr(u.name), LowerStr(search))
    || Contains(LowerStr(u.email), LowerStr(search))
    || (u.phone.Some? && u.phone.value != "" && Contains(u.phone.value, search))
  }

  /** Whether `u` survives all three filters of `q` (an absent or empty parameter filters nothing). */
  predicate Keeps(q: UserQuery, u: ManagedUser) {
    (q.status.None? || u.status == q.status.value)
    && (q.role.None? || u.role == q.role.value)
    && (q.search.None? || q.search.value == "" || SearchHit(u, q.search.value))
  }

  /** Reference definition of the filtering stage: one filter by the conjunction of the tests. */
  function Selected(table: seq<ManagedUser>, q: UserQuery): seq<ManagedUser> {
    Filter(table, (u: ManagedUser) => Keeps(q, u))
  }

  // ---------------------------------------------------------------------------
  // Sorting: the comparator and a specification of insertion sort
  // ---------------------------------------------------------------------------

  /**
    `String(user[field])`, or `None` when the field is `undefined`. Any name that is
    not a field of the record is treated as undefined; for the inherited properties of
    a JavaScript object both operands give the same string, so the comparator is 0 in
    either reading.
   */
  function SortKey(u: ManagedUser, field: string): Option<string> {
    if field == "id" then Some(u.id)
    else if field == "name" then Some(u.name)
    else if field == "email" then Some(u.email)
    else if field == "phone" then u.phone
    else if field == "status" then Some(StatusName(u.status))
    else if field == "role" then Some(RoleName(u.role))
    else if field == "joinedAt" then Some(u.joinedAt)
    else if field == "lastActive" then u.lastActive
    else if field == "completedOpportunities" then
      (if u.completedOpportunities.Some? then Some(NatToString(u.completedOpportunities.value)) else None)
    else if field == "totalHours" then
      (if u.totalHours.Some? then Some(NatToString(u.totalHours.value)) else None)
    else if field == "nationalIdVerified" then
      (if u.nationalIdVerified.Some? then Some(if u.nationalIdVerified.value then "true" else "false") else None)
    else if field == "notes" then u.notes
    else if field == "documents" then (if u.documents.Some? then Some("[object Object]") else None)
    else None
  }

  /** The fields every managed user carries. */
  predicate MandatoryField(field: string) {
    field in {"id", "name", "email", "status", "role", "joinedAt"}
  }

  /**
    The sort comparator on the two values `String(a[field])` and `String(b[field])`:
    0 when either is missing, otherwise their string order, with the operands
    swapped for a descending sort.
   */
  function KeyCmp(ka: Option<string>, kb: Option<string>, desc: bool): (r: int)
    ensures -1 <= r <= 1
    ensures r == 0 <==> ka.None? || kb.None? || ka == kb
  {
    if ka.None? || kb.None? then 0
    else
      CompareZeroIffEqual(ka.value, kb.value);
      CompareZeroIffEqual(kb.value, ka.value);
      if desc then Compare(kb.value, ka.value) else Compare(ka.value, kb.value)
  }

  /** Swapping the operands negates the comparator. */
  lemma KeyCmpAntisymmetric(ka: Option<string>, kb: Option<string>, desc: bool)
    ensures KeyCmp(ka, kb, desc) == -KeyCmp(kb, ka, desc)
  {
    if ka.Some? && kb.Some? {
      CompareAntisymmetric(ka.value, kb.value);
    }
  }

  /** Among present values the comparator is transitive. */
  lemma KeyCmpTransitive(ka: Option<string>, kb: Option<string>, kc: Option<string>, desc: bool)
    requires ka.Some? && kb.Some? && kc.Some?
    requires KeyCmp(ka, kb, desc) <= 0 && KeyCmp(kb, kc, desc) <= 0
    ensures KeyCmp(ka, kc, desc) <= 0
  {
    if desc {
      CompareTransitive(kc.value, kb.value, ka.value);
    } else {
      CompareTransitive(ka.value, kb.value, kc.value);
    }
  }

  /**
    Inserts `x` into `p` from the right, past every element that compares greater
    than `x`; `key` reads the sort value of a user.
   */
  function Insert(p: seq<ManagedUser>, x: ManagedUser, key: ManagedUser -> Option<string>, desc: bool): (r: seq<ManagedUser>)
    ensures |r| == |p| + 1
    decreases |p|
  {
    if |p| == 0 || KeyCmp(key(p[|p| - 1]), key(x), desc) <= 0 then p + [x]
    else Insert(p[..|p| - 1], x, key, desc) + [p[|p| - 1]]
  }

  /** Insertion adds exactly `x`. */
  lemma {:induction false} InsertPermutes(p: seq<ManagedUser>, x: ManagedUser, key: ManagedUser -> Option<string>, desc: bool)
    ensures multiset(Insert(p, x, key, desc)) == multiset(p) + multiset{x}
    decreases |p|
  {
    if |p| > 0 && KeyCmp(key(p[|p| - 1]), key(x), desc) > 0 {
      InsertPermutes(p[..|p| - 1], x, key, desc);
      assert p == p[..|p| - 1] + [p[|p| - 1]];
    }
  }

  /** Insertion sort of `s`, one element at a time from the left: a permutation of `s`. */
  function SortSeq(s: seq<ManagedUser>, key: ManagedUser -> Option<string>, desc: bool): (r: seq<ManagedUser>)
    ensures |r| == |s|
    decreases |s|
  {
    if |s| == 0 then []
    else Insert(SortSeq(s[..|s| - 1], key, desc), s[|s| - 1], key, desc)
  }

  /** Sorting only reorders: the result is a permutation of the input. */
  lemma {:induction false} SortSeqPermutes(s: seq<ManagedUser>, key: ManagedUser -> Option<string>, desc: bool)
    ensures multiset(SortSeq(s, key, desc)) == multiset(s)
    decreases |s|
  {
    if |s| > 0 {
      SortSeqPermutes(s[..|s| - 1], key, desc);
      InsertPermutes(SortSeq(s[..|s| - 1], key, desc), s[|s| - 1], key, desc);
      assert s == s[..|s| - 1] + [s[|s| - 1]];
    }
  }

  predicate KeysPresent(s: seq<ManagedUser>, key: ManagedUser -> Option<string>) {
    forall i :: 0 <= i < |s| ==> key(s[i]).Some?
  }

  /** No later element compares before an earlier one. */
  predicate Ordered(s: seq<ManagedUser>, key: ManagedUser -> Option<string>, desc: bool) {
    forall i, j :: 0 <= i < j < |s| ==> KeyCmp(key(s[i]), key(s[j]), desc) <= 0
  }

  /** Appending an element that no earlier element exceeds keeps a list ordered. */
  lemma OrderedSnoc(s: seq<ManagedUser>, y: ManagedUser, key: ManagedUser -> Option<string>, desc: bool)
    requires Ordered(s, key, desc)
    requires forall i :: 0 <= i < |s| ==> KeyCmp(key(s[i]), key(y), desc) <= 0
    ensures Ordered(s + [y], key, desc)
  {
    var r := s + [y];
    forall i, j | 0 <= i < j < |r| ensures KeyCmp(key(r[i]), key(r[j]), desc) <= 0 {
      assert r[i] == s[i];
    }
  }

  /** If the last element of an ordered list does not exceed `x`, no element does. */
  lemma BelowLast(p: seq<ManagedUser>, x: ManagedUser, key: ManagedUser -> Option<string>, desc: bool)
    requires |p| > 0 && Ordered(p, key, desc) && KeysPresent(p, key) && key(x).Some?
    requires KeyCmp(key(p[|p| - 1]), key(x), desc) <= 0
    ensures forall i :: 0 <= i < |p| ==> KeyCmp(key(p[i]), key(x), desc) <= 0
  {
    forall i | 0 <= i < |p| ensures KeyCmp(key(p[i]), key(x), desc) <= 0 {
      if i < |p| - 1 {
        KeyCmpTransitive(key(p[i]), key(p[|p| - 1]), key(x), desc);
      }
    }
  }

  /** Inserting into an ordered list, all values present, keeps it ordered. */
  lemma {:induction false} InsertOrdered(p: seq<ManagedUser>, x: ManagedUser, key: ManagedUser -> Option<string>, desc: bool)
    requires Ordered(p, key, desc) && KeysPresent(p, key) && key(x).Some?
    ensures Ordered(Insert(p, x, key, desc), key, desc)
    decreases |p|
  {
    if |p| == 0 {
    } else if KeyCmp(key(p[|p| - 1]), key(x), desc) <= 0 {
      BelowLast(p, x, key, desc);
      OrderedSnoc(p, x, key, desc);
    } else {
      var last := p[|p| - 1];
      var init := p[..|p| - 1];
      var left := Insert(init, x, key, desc);
      InsertOrdered(init, x, key, desc);
      InsertPermutes(init, x, key, desc);
      KeyCmpAntisymmetric(key(last), key(x), desc);
      forall i | 0 <= i < |left| ensures KeyCmp(key(left[i]), key(last), desc) <= 0 {
        assert left[i] in multiset(left);
        if left[i] != x {
          assert left[i] in multiset(init);
          var k :| 0 <= k < |init| && init[k] == left[i];
          assert KeyCmp(key(p[k]), key(p[|p| - 1]), desc) <= 0;
        }
      }
      OrderedSnoc(left, last, key, desc);
    }
  }

  /** Sorting by a value every user has orders the whole list. */
  lemma {:induction false} SortSeqOrdered(s: seq<ManagedUser>, key: ManagedUser -> Option<string>, desc: bool)
    requires KeysPresent(s, key)
    ensures Ordered(SortSeq(s, key, desc), key, desc)
    decreases |s|
  {
    if |s| > 0 {
      var init := s[..|s| - 1];
      SortSeqOrdered(init, key, desc);
      var sorted := SortSeq(init, key, desc);
      SortSeqPermutes(init, key, desc);
      forall i | 0 <= i < |sorted| ensures key(sorted[i]).Some? {
        assert sorted[i] in multiset(init);
      }
      InsertOrdered(sorted, s[|s| - 1], key, desc);
    }
  }

  /** The test "the sort value is `v`". */
  function WithKey(key: ManagedUser -> Option<string>, v: string): ManagedUser -> bool {
    (u: ManagedUser) => key(u) == Some(v)
  }

  /**
    Insertion moves `x` only past users that compare greater, whose value differs
    from `x`'s: the users with any one value keep their order, `x` coming last.
   */
  lemma {:induction false} InsertFilter(p: seq<ManagedUser>, x: ManagedUser, key: ManagedUser -> Option<string>, desc: bool, v: string)
    ensures Filter(Insert(p, x, key, desc), WithKey(key, v))
      == Filter(p, WithKey(key, v)) + (if key(x) == Some(v) then [x] else [])
    decreases |p|
  {
    var f := WithKey(key, v);
    if |p| == 0 || KeyCmp(key(p[|p| - 1]), key(x), desc) <= 0 {
      FilterAppend(p, [x], f);
    } else {
      var init, last := p[..|p| - 1], p[|p| - 1];
      assert Insert(p, x, key, desc) == Insert(init, x, key, desc) + [last];
      assert init + [last] == p;
      InsertFilter(init, x, key, desc, v);
      FilterAppend(Insert(init, x, key, desc), [last], f);
      FilterAppend(init, [last], f);
      assert key(last) != key(x);
    }
  }

  /**
    The sort is stable: users with equal sort values keep their input order, in
    both directions ('desc' swaps the comparison's operands, it does not reverse).
   */
  lemma {:induction false} SortSeqStable(s: seq<ManagedUser>, key: ManagedUser -> Option<string>, desc: bool, v: string)
    ensures Filter(SortSeq(s, key, desc), WithKey(key, v)) == Filter(s, WithKey(key, v))
    decreases |s|
  {
    if |s| > 0 {
      var init, last := s[..|s| - 1], s[|s| - 1];
      SortSeqStable(init, key, desc, v);
      InsertFilter(SortSeq(init, key, desc), last, key, desc, v);
      FilterAppend(init, [last], WithKey(key, v));
      assert init + [last] == s;
    }
  }

  /** One pass of the sort: moves `a[i]` left into the sorted prefix `a[..i]`. */
  method InsertInPlace(a: array<ManagedUser>, i: int, key: ManagedUser -> Option<string>, desc: bool)
    requires 0 <= i < a.Length
    modifies a
    ensures a[..i + 1] == Insert(old(a[..i]), old(a[i]), key, desc)
    ensures a[i + 1..] == old(a[i + 1..])
  {
    var x := a[i];
    ghost var sorted := a[..i];
    ghost var rest := a[i + 1..];
    var j := OpenGap(a, i, x, key, desc);
    ghost var before := a[..];
    a[j] := x;
    Placed(before, a[..], sorted, rest, i, j, x);
    InsertAt(sorted, j, x, key, desc);
  }

  /**
    The shifting loop: every element of `a[..i]` from the returned `j` on compares
    greater than `x` and moves one place right; the element before `j`, if any, does not.
   */
  method OpenGap(a: array<ManagedUser>, i: int, x: ManagedUser, key: ManagedUser -> Option<string>, desc: bool) returns (j: int)
    requires 0 <= i < a.Length
    modifies a
    ensures 0 <= j <= i
    ensures a[..j] == old(a[..i])[..j] && a[j + 1..i + 1] == old(a[..i])[j..] && a[i + 1..] == old(a[i + 1..])
    ensures forall k :: j <= k < i ==> KeyCmp(key(old(a[..i])[k]), key(x), desc) > 0
    ensures j == 0 || KeyCmp(key(old(a[..i])[j - 1]), key(x), desc) <= 0
  {
    ghost var sorted := a[..i];
    ghost var rest := a[i + 1..];
    j := i;
    while j > 0 && KeyCmp(key(a[j - 1]), key(x), desc) > 0
      invariant 0 <= j <= i
      invariant a[..j] == sorted[..j]
      invariant a[j + 1..i + 1] == sorted[j..i]
      invariant a[i + 1..] == rest
      invariant forall k :: j <= k < i ==> KeyCmp(key(sorted[k]), key(x), desc) > 0
    {
      assert a[j - 1] == a[..j][j - 1] == sorted[j - 1];
      ghost var before := a[..];
      a[j] := a[j - 1];
      ShiftStep(before, a[..], sorted, rest, i, j);
      j := j - 1;
    }
    assert j == 0 || a[j - 1] == a[..j][j - 1] == sorted[j - 1];
    assert sorted == old(a[..i]);
  }

  /** Copying `a[j - 1]` into `a[j]` opens the gap one place further left. */
  lemma ShiftStep<T>(before: seq<T>, after: seq<T>, sorted: seq<T>, rest: seq<T>, i: int, j: int)
    requires 0 < j <= i < |before| && |sorted| == i && after == before[j := before[j - 1]]
    requires before[..j] == sorted[..j] && before[j + 1..i + 1] == sorted[j..i] && before[i + 1..] == rest
    ensures after[..j - 1] == sorted[..j - 1] && after[j..i + 1] == sorted[j - 1..i] && after[i + 1..] == rest
  {
    assert after[..j - 1] == before[..j][..j - 1];
    assert after[j..i + 1] == [before[j - 1]] + before[j + 1..i + 1];
    assert after[i + 1..] == before[i + 1..];
  }

  /** Writing `x` into the gap at `j` gives the prefix with `x` inserted there. */
  lemma Placed<T>(before: seq<T>, after: seq<T>, sorted: seq<T>, rest: seq<T>, i: int, j: int, x: T)
    requires 0 <= j <= i < |before| && |sorted| == i && after == before[j := x]
    requires before[..j] == sorted[..j] && before[j + 1..i + 1] == sorted[j..i] && before[i + 1..] == rest
    ensures after[..i + 1] == sorted[..j] + [x] + sorted[j..i] && after[i + 1..] == rest
  {
    assert after[..i + 1] == before[..j] + [x] + before[j + 1..i + 1];
    assert after[i + 1..] == before[i + 1..];
  }

  /**
    `x` lands at position `j` when every element from `j` on compares greater than `x`
    and the element before `j`, if any, does not.
   */
  lemma {:induction false} InsertAt(p: seq<ManagedUser>, j: int, x: ManagedUser, key: ManagedUser -> Option<string>, desc: bool)
    requires 0 <= j <= |p|
    requires j == 0 || KeyCmp(key(p[j - 1]), key(x), desc) <= 0
    requires forall k :: j <= k < |p| ==> KeyCmp(key(p[k]), key(x), desc) > 0
    ensures Insert(p, x, key, desc) == p[..j] + [x] + p[j..]
    decreases |p|
  {
    if j < |p| {
      var init, last := p[..|p| - 1], p[|p| - 1];
      assert KeyCmp(key(last), key(x), desc) > 0;
      assert Insert(p, x, key, desc) == Insert(init, x, key, desc) + [last];
      assert j == 0 || init[j - 1] == p[j - 1];
      forall k | j <= k < |init| ensures KeyCmp(key(init[k]), key(x), desc) > 0 {
        assert init[k] == p[k];
      }
      InsertAt(init, j, x, key, desc);
      SplitSnoc(init, last, x, j);
      assert init + [last] == p;
    } else {
      assert p[..j] == p;
    }
  }

  /** Putting `x` at position `j` commutes with appending an element at the end. */
  lemma SplitSnoc(init: seq<ManagedUser>, last: ManagedUser, x: ManagedUser, j: int)
    requires 0 <= j <= |init|
    ensures (init[..j] + [x] + init[j..]) + [last] == (init + [last])[..j] + [x] + (init + [last])[j..]
  {
    assert (init + [last])[..j] == init[..j];
    assert (init + [last])[j..] == init[j..] + [last];
  }

  lemma SortSeqStep(s: seq<ManagedUser>, i: int, key: ManagedUser -> Option<string>, desc: bool)
    requires 0 <= i < |s|
    ensures SortSeq(s[..i + 1], key, desc) == Insert(SortSeq(s[..i], key, desc), s[i], key, desc)
  {
    assert s[..i + 1][..i] == s[..i];
  }

  /** `filteredUsers.sort(comparator)`, in place. */
  method SortInPlace(a: array<ManagedUser>, key: ManagedUser -> Option<string>, desc: bool)
    modifies a
    ensures a[..] == SortSeq(old(a[..]), key, desc)
  {
    ghost var original := a[..];
    var i := 0;
    while i < a.Length
      invariant 0 <= i <= a.Length
      invariant a[..i] == SortSeq(original[..i], key, desc)
      invariant a[i..] == original[i..]
    {
      assert a[i] == original[i] && a[i + 1..] == original[i + 1..];
      InsertInPlace(a, i, key, desc);
      SortSeqStep(original, i, key, desc);
      i := i + 1;
    }
    assert a[..] == a[..a.Length];
    assert original == original[..a.Length];
  }

  // ---------------------------------------------------------------------------
  // The query engine
  // ---------------------------------------------------------------------------

  /** The sort value reader for field `field`. */
  function KeyOf(field: string): ManagedUser -> Option<string> {
    (u: ManagedUser) => SortKey(u, field)
  }

  function SortStage(s: seq<ManagedUser>, q: UserQuery): seq<ManagedUser> {
    if q.sortBy.Some? && q.sortBy.value != "" then SortSeq(s, KeyOf(q.sortBy.value), q.sortOrder == Some(Desc))
    else s
  }

  predicate Paged(q: UserQuery) {
    q.page.Some? && q.pageSize.Some?
  }

  function PageStage(s: seq<ManagedUser>, q: UserQuery): seq<ManagedUser> {
    if Paged(q) then
      var start := q.page.value * q.pageSize.value;
      JsSlice(s, start, start + q.pageSize.value)
    else s
  }

  /** What `getMockUsers(q)` returns for the user table `table`. */
  function Query(table: seq<ManagedUser>, q: UserQuery): seq<ManagedUser> {
    PageStage(SortStage(Selected(table, q), q), q)
  }

  /** `getMockUsers`: filter step by step, sort a copy in place, then cut out the page. */
  method GetMockUsers(table: seq<ManagedUser>, q: UserQuery) returns (r: seq<ManagedUser>)
    ensures r == Query(table, q)
  {
    var filtered := FilterUsers(table, q);
    if q.sortBy.Some? && q.sortBy.value != "" {
      var a := new ManagedUser[|filtered|](i requires 0 <= i < |filtered| => filtered[i]);
      assert a[..] == filtered;
      SortInPlace(a, KeyOf(q.sortBy.value), q.sortOrder == Some(Desc));
      filtered := a[..];
    }
    if q.page.Some? && q.pageSize.Some? {
      var start := q.page.value * q.pageSize.value;
      var end := start + q.pageSize.value;
      filtered := JsSlice(filtered, start, end);
    }
    r := filtered;
  }

  /** The status, role and search filters of `getMockUsers`, each narrowing the list in turn. */
  method FilterUsers(table: seq<ManagedUser>, q: UserQuery) returns (filtered: seq<ManagedUser>)
    ensures filtered == Selected(table, q)
  {
    filtered := table;
    ghost var stage: ManagedUser -> bool := (u: ManagedUser) => true;
    FilterKeepsAll(table, stage);
    if q.status.Some? {
      var status := q.status.value;
      var byStatus := (u: ManagedUser) => u.status == status;
      ghost var next := (u: ManagedUser) => u.status == status;
      FilterFilter(table, stage, byStatus, next);
      filtered := Filter(filtered, byStatus);
      stage := next;
    }
    ghost var statusStage := stage;
    if q.role.Some? {
      var role := q.role.value;
      var byRole := (u: ManagedUser) => u.role == role;
      ghost var next := (u: ManagedUser) => statusStage(u) && u.role == role;
      FilterFilter(table, stage, byRole, next);
      filtered := Filter(filtered, byRole);
      stage := next;
    }
    ghost var roleStage := stage;
    if q.search.Some? && q.search.value != "" {
      var search := q.search.value;
      var bySearch := (u: ManagedUser) => SearchHit(u, search);
      ghost var next := (u: ManagedUser) => roleStage(u) && SearchHit(u, search);
      FilterFilter(table, stage, bySearch, next);
      filtered := Filter(filtered, bySearch);
      stage := next;
    }
    assert forall u :: stage(u) == Keeps(q, u);
    FilterSamePredicate(table, stage, (u: ManagedUser) => Keeps(q, u));
  }

  // ---------------------------------------------------------------------------
  // Properties of the query engine
  // ---------------------------------------------------------------------------

  /** A user survives the filters iff it is in the table and passes the status, role and search tests. */
  lemma SelectedMembership(table: seq<ManagedUser>, q: UserQuery, u: ManagedUser)
    ensures u in Selected(table, q) <==>
      u in table
      && (q.status.Some? ==> u.status == q.status.value)
      && (q.role.Some? ==> u.role == q.role.value)
      && (q.search.Some? && q.search.value != "" ==>
            Contains(LowerStr(u.name), LowerStr(q.search.value))
            || Contains(LowerStr(u.email), LowerStr(q.search.value))
            || (u.phone.Some? && u.phone.value != "" && Contains(u.phone.value, q.search.value)))
  {
    FilterMembership(table, (u: ManagedUser) => Keeps(q, u), u);
  }

  /** Filtering only deletes users; the survivors keep the table's order. */
  lemma SelectedIsSubsequence(table: seq<ManagedUser>, q: UserQuery)
    ensures IsSubsequence(Selected(table, q), table)
  {
    FilterIsSubsequence(table, (u: ManagedUser) => Keeps(q, u));
  }

  /** Every returned user came from the table and has the requested status and role. */
  lemma QueryRespectsFilters(table: seq<ManagedUser>, q: UserQuery, u: ManagedUser)
    requires u in Query(table, q)
    ensures u in table
    ensures q.status.Some? ==> u.status == q.status.value
    ensures q.role.Some? ==> u.role == q.role.value
    ensures q.search.Some? && q.search.value != "" ==> SearchHit(u, q.search.value)
  {
    var sel := Selected(table, q);
    var sorted := SortStage(sel, q);
    PageStageSubset(sorted, q, u);
    SortStagePermutes(sel, q);
    assert u in multiset(sorted);
    FilterMembership(table, (u: ManagedUser) => Keeps(q, u), u);
  }

  lemma SortStagePermutes(s: seq<ManagedUser>, q: UserQuery)
    ensures multiset(SortStage(s, q)) == multiset(s)
  {
    if q.sortBy.Some? && q.sortBy.value != "" {
      SortSeqPermutes(s, KeyOf(q.sortBy.value), q.sortOrder == Some(Desc));
    }
  }

  lemma PageStageSubset(s: seq<ManagedUser>, q: UserQuery, u: ManagedUser)
    requires u in PageStage(s, q)
    ensures u in s
  {
    if Paged(q) {
      var start := q.page.value * q.pageSize.value;
      var from := SliceIndex(start, |s|);
      var to := SliceIndex(start + q.pageSize.value, |s|);
      var k :| 0 <= k < to - from && s[from..to][k] == u;
      assert s[from + k] == u;
    }
  }

  /** Without paging the result is a permutation of the filtered users. */
  lemma QueryIsPermutation(table: seq<ManagedUser>, q: UserQuery)
    requires !Paged(q)
    ensures multiset(Query(table, q)) == multiset(Selected(table, q))
  {
    SortStagePermutes(Selected(table, q), q);
  }

  /** With no parameters the table comes back unchanged. */
  lemma QueryNoParams(table: seq<ManagedUser>)
    ensures Query(table, NoQuery) == table
  {
    FilterKeepsAll(table, (u: ManagedUser) => Keeps(NoQuery, u));
  }

  /**
    With a sort field that every filtered user carries, the result is ordered
    ascending, or descending for `sortOrder` 'desc', also when it is paged.
   */
  lemma QueryOrdered(table: seq<ManagedUser>, q: UserQuery)
    requires q.sortBy.Some? && q.sortBy.value != ""
    requires KeysPresent(Selected(table, q), KeyOf(q.sortBy.value))
    ensures Ordered(Query(table, q), KeyOf(q.sortBy.value), q.sortOrder == Some(Desc))
  {
    var key, desc := KeyOf(q.sortBy.value), q.sortOrder == Some(Desc);
    var sorted := SortStage(Selected(table, q), q);
    SortSeqOrdered(Selected(table, q), key, desc);
    PageStageOrdered(sorted, q, key, desc);
  }

  /**
    The sort stage keeps the filtered order among users with the same value of
    the sort field; a page is a slice of this list (QueryPage).
   */
  lemma SortStageStable(table: seq<ManagedUser>, q: UserQuery, v: string)
    requires q.sortBy.Some?
    ensures var f := WithKey(KeyOf(q.sortBy.value), v);
      Filter(SortStage(Selected(table, q), q), f) == Filter(Selected(table, q), f)
  {
    if q.sortBy.value != "" {
      SortSeqStable(Selected(table, q), KeyOf(q.sortBy.value), q.sortOrder == Some(Desc), v);
    }
  }

  /** Without paging, users with the same sort value are returned in table order. */
  lemma QueryStable(table: seq<ManagedUser>, q: UserQuery, v: string)
    requires q.sortBy.Some? && !Paged(q)
    ensures var f := WithKey(KeyOf(q.sortBy.value), v);
      Filter(Query(table, q), f) == Filter(Selected(table, q), f)
  {
    SortStageStable(table, q, v);
  }

  /** Cutting a page out of an ordered list leaves it ordered. */
  lemma PageStageOrdered(s: seq<ManagedUser>, q: UserQuery, key: ManagedUser -> Option<string>, desc: bool)
    requires Ordered(s, key, desc)
    ensures Ordered(PageStage(s, q), key, desc)
  {
    if Paged(q) {
      var start := q.page.value * q.pageSize.value;
      var from := SliceIndex(start, |s|);
      var to := SliceIndex(start + q.pageSize.value, |s|);
      if from < to {
        var r := s[from..to];
        assert forall i, j :: 0 <= i < j < |r| ==> r[i] == s[from + i] && r[j] == s[from + j];
      }
    }
  }

  /** The fields every user carries can always be sorted on. */
  lemma MandatoryFieldsPresent(s: seq<ManagedUser>, field: string)
    requires MandatoryField(field)
    ensures KeysPresent(s, KeyOf(field))
  {
  }

  /**
    Paging applies only when both `page` and `pageSize` are given: it returns at most
    `pageSize` users and, for a non-negative page, exactly the users at 0-based positions
    `page*pageSize ..` of the sorted list that fall before `(page+1)*pageSize`.
   */
  lemma QueryPage(table: seq<ManagedUser>, q: UserQuery)
    ensures !Paged(q) ==> Query(table, q) == SortStage(Selected(table, q), q)
    ensures Paged(q) && q.pageSize.value >= 0 ==> |Query(table, q)| <= q.pageSize.value
    ensures Paged(q) && q.page.value >= 0 && q.pageSize.value >= 0 ==>
      forall k :: 0 <= k < |Query(table, q)| ==>
        Query(table, q)[k] == SortStage(Selected(table, q), q)[q.page.value * q.pageSize.value + k]
    ensures Paged(q) && q.page.value >= 0 && q.pageSize.value >= 0 ==>
      var n := |SortStage(Selected(table, q), q)|;
      var start := q.page.value * q.pageSize.value;
      var end := start + q.pageSize.value;
      |Query(table, q)| == if start < end && start < n then (if end < n then end else n) - start else 0
  {
    PageStageWindow(SortStage(Selected(table, q), q), q);
  }

  /** The page stage in terms of the list it cuts from. */
  lemma PageStageWindow(s: seq<ManagedUser>, q: UserQuery)
    ensures !Paged(q) ==> PageStage(s, q) == s
    ensures Paged(q) && q.pageSize.value >= 0 ==> |PageStage(s, q)| <= q.pageSize.value
    ensures Paged(q) && q.page.value >= 0 && q.pageSize.value >= 0 ==>
      forall k :: 0 <= k < |PageStage(s, q)| ==> PageStage(s, q)[k] == s[q.page.value * q.pageSize.value + k]
    ensures Paged(q) && q.page.value >= 0 && q.pageSize.value >= 0 ==>
      var start := q.page.value * q.pageSize.value;
      var end := start + q.pageSize.value;
      |PageStage(s, q)| == if start < end && start < |s| then (if end < |s| then end else |s|) - start else 0
  {
    if Paged(q) {
      var start := q.page.value * q.pageSize.value;
      if q.pageSize.value >= 0 {
        JsSliceAtMost(s, start, q.pageSize.value);
        if q.page.value >= 0 {
          JsSliceWindow(s, start, start + q.pageSize.value);
        }
      }
    }
  }

  // ---------------------------------------------------------------------------
  // Lookup by id
  // ---------------------------------------------------------------------------

  /** `table.find(user => user.id === id)`: the first user with that id. */
  function FindUser(table: seq<ManagedUser>, id: string): (r: Option<ManagedUser>)
    ensures r.Some? ==> r.value in table && r.value.id == id
    ensures r.None? <==> forall i :: 0 <= i < |table| ==> table[i].id != id
    decreases |table|
  {
    if |table| == 0 then None
    else if table[0].id == id then Some(table[0])
    else
      var rest := FindUser(table[1..], id);
      assert forall i :: 1 <= i < |table| ==> table[i] == table[1..][i - 1];
      rest
  }

  predicate IdsUnique(table: seq<ManagedUser>) {
    forall i, j :: 0 <= i < j < |table| ==> table[i].id != table[j].id
  }

  /** In a table with unique ids, the lookup finds exactly the user carrying the id. */
  lemma {:induction false} FindUserUnique(table: seq<ManagedUser>, i: int)
    requires IdsUnique(table) && 0 <= i < |table|
    ensures FindUser(table, table[i].id) == Some(table[i])
    decreases |table|
  {
    if i > 0 {
      assert table[0].id != table[i].id;
      FindUserUnique(table[1..], i - 1);
    }
  }

  /** `getMockUserById(id)`: look the id up in the unfiltered built-in table. */
  function GetMockUserById(id: string): Option<ManagedUser> {
    FindUser(Query(MockUsers(), NoQuery), id)
  }

  /** The built-in table has unique ids, so lookup returns the one user with the id, or none. */
  lemma GetMockUserByIdSpec(id: string)
    ensures forall i :: 0 <= i < |MockUsers()| && MockUsers()[i].id == id ==> GetMockUserById(id) == Some(MockUsers()[i])
    ensures GetMockUserById(id).None? <==> forall i :: 0 <= i < |MockUsers()| ==> MockUsers()[i].id != id
  {
    QueryNoParams(MockUsers());
    MockIdsUnique();
    forall i | 0 <= i < |MockUsers()| && MockUsers()[i].id == id
      ensures GetMockUserById(id) == Some(MockUsers()[i])
    {
      FindUserUnique(MockUsers(), i);
    }
  }

  // ---------------------------------------------------------------------------
  // Simulated admin actions
  // ---------------------------------------------------------------------------

  /**
    The action argument. The declared type admits only the five names; `Unknown`
    stands for any other string an untyped caller could pass.
   */
  datatype UserAction = Admit | Revoke | Promote | Block | Delete | Unknown(name: string)

  /** The copy of the record after a known action: the fields the action sets, the rest as they were. */
  function Applied(u: ManagedUser, action: UserAction, now: string): (r: ManagedUser)
    requires !action.Unknown?
    ensures r.id == u.id && r.name == u.name && r.email == u.email
    ensures r.role == if action.Promote? then Admin else u.role
    ensures r.status == match action
      case Admit => Active
      case Revoke => Inactive
      case Block => Blocked
      case _ => u.status
    ensures action.Admit? ==> r.nationalIdVerified == Some(true) && r.lastActive == Some(now)
    ensures !action.Admit? ==> r.nationalIdVerified == u.nationalIdVerified && r.lastActive == u.lastActive
    // every field other than status, role, nationalIdVerified and lastActive is kept
    ensures r.(status := u.status, role := u.role, nationalIdVerified := u.nationalIdVerified, lastActive := u.lastActive) == u
    ensures action.Delete? ==> r == u
  {
    match action
    case Admit => u.(status := Active, nationalIdVerified := Some(true), lastActive := Some(now))
    case Revoke => u.(status := Inactive)
    case Promote => u.(role := Admin)
    case Block => u.(status := Blocked)
    case Delete => u
  }

  /** Repeating an action on its own result changes nothing more. */
  lemma AppliedIdempotent(u: ManagedUser, action: UserAction, now: string)
    requires !action.Unknown?
    ensures Applied(Applied(u, action, now), action, now) == Applied(u, action, now)
  {
  }

  /** The success message: `User <past tense of the action> successfully`. */
  function SuccessMessage(action: UserAction): string {
    match action
    case Admit => "User admitted successfully"
    case Revoke => "User revoked successfully"
    case Promote => "User promoted successfully"
    case Block => "User blocked successfully"
    case Delete => "User deleted successfully"
    case Unknown(_) => "Invalid action"
  }

  /**
    `simulateUserAction(userId, action)`. The lookup comes first, so an unknown id
    reports "User not found" whatever the action. The found record is copied and the
    copy's fields are changed; `now` is the ISO time stamp the clock would give.
   */
  method SimulateUserAction(table: seq<ManagedUser>, userId: string, action: UserAction, now: string)
    returns (resp: ActionResponse)
    ensures FindUser(table, userId).None? ==> resp == ActionResponse(false, "User not found", None)
    ensures FindUser(table, userId).Some? && action.Unknown? ==> resp == ActionResponse(false, "Invalid action", None)
    ensures resp.success <==> FindUser(table, userId).Some? && !action.Unknown?
    ensures resp.success ==> resp.user.Some? && resp.user.value.id == userId
    ensures resp.success ==>
      resp.user == Some(Applied(FindUser(table, userId).value, action, now)) && resp.message == SuccessMessage(action)
  {
    var found := FindUser(table, userId);
    if found.None? {
      return ActionResponse(false, "User not found", None);
    }
    var updated := found.value;
    // The message is the template `User <past tense of the action> successfully`.
    var message: string;
    match action {
      case Admit =>
        updated := updated.(status := Active);
        updated := updated.(nationalIdVerified := Some(true));
        updated := updated.(lastActive := Some(now));
        message := "User admitted successfully";
      case Revoke =>
        updated := updated.(status := Inactive);
        message := "User revoked successfully";
      case Promote =>
        updated := updated.(role := Admin);
        message := "User promoted successfully";
      case Block =>
        updated := updated.(status := Blocked);
        message := "User blocked successfully";
      case Delete =>
        message := "User deleted successfully";
      case Unknown(_) =>
        return ActionResponse(false, "Invalid action", None);
    }
    resp := ActionResponse(true, message, Some(updated));
  }

  // ---------------------------------------------------------------------------
  // The built-in table
  // ---------------------------------------------------------------------------

  /** The placeholder image standing for a scanned national id card of the given colour. */
  function IdCardImage(color: string): string {
    "https://placehold.co/400x250/" + color + "/FFFFFF/png?text=National+ID"
  }

  /** The generated avatar standing for a selfie: initials on a coloured background. */
  function SelfieImage(name: string, background: string): string {
    "https://ui-avatars.com/api/?name=" + name + "&size=300&background=" + background + "&color=fff"
  }

  function Pending(id: string, name: string, email: string, phone: string, joinedAt: string,
                   idCardColor: string, selfieName: string, selfieBackground: string): ManagedUser
  {
    ManagedUser(id, name, email, Some(phone), Status.Pending, User, joinedAt, None, None, None,
                Some(false), None,
                Some(Documents(Some(IdCardImage(idCardColor)), Some(SelfieImage(selfieName, selfieBackground)))))
  }

  function Staff(id: string, name: string, email: string, phone: string, role: Role, joinedAt: string,
                 lastActive: string, completed: Option<nat>, hours: Option<nat>): ManagedUser
  {
    ManagedUser(id, name, email, Some(phone), Status.Active, role, joinedAt, Some(lastActive),
                completed, hours, Some(true), None, None)
  }

  /** The nine users of the mock table: three pending, three active volunteers, two admins, one super admin. */
  function MockUsers(): seq<ManagedUser> {
    [UserP1(), UserP2(), UserP3(), UserA1(), UserA2(), UserA3(), UserAdmin1(), UserAdmin2(), UserSuper1()]
  }

  function UserP1(): ManagedUser {
    Pending("p1", "Ahmed Mohammed", "ahmed@example.com", "+966 50 123 4567", "2025-04-01T10:15:30Z",
      "3f6212", "Ahmed+M", "0D8ABC")
  }

  function UserP2(): ManagedUser {
    Pending("p2", "Fatima Ali", "fatima@example.com", "+966 55 987 6543", "2025-04-02T14:22:10Z",
      "365314", "Fatima+A", "D77EB9")
  }

  function UserP3(): ManagedUser {
    Pending("p3", "Omar Abdullah", "omar@example.com", "+966 50 555 7890", "2025-04-03T09:45:00Z",
      "166534", "Omar+A", "8B5CF6")
  }

  function UserA1(): ManagedUser {
    Staff("a1", "Mohammed Saleh", "msaleh@example.com", "+966 50 111 2222", User,
      "2025-03-15T08:30:00Z", "2025-04-09T16:45:22Z", Some(3), Some(24))
  }

  function UserA2(): ManagedUser {
    Staff("a2", "Aisha Rahman", "aisha@example.com", "+966 55 333 4444", User,
      "2025-03-10T11:20:15Z", "2025-04-10T09:15:30Z", Some(5), Some(36))
  }

  function UserA3(): ManagedUser {
    Staff("a3", "Khalid Ibrahim", "khalid@example.com", "+966 50 777 8888", User,
      "2025-03-05T13:10:45Z", "2025-04-08T14:30:00Z", Some(2), Some(16))
  }

  function UserAdmin1(): ManagedUser {
    Staff("admin1", "Saud Al-Qahtani", "saud@haramainvolunteers.org", "+966 50 999 8888", Admin,
      "2025-01-10T09:00:00Z", "2025-04-10T17:30:00Z", None, None)
  }

  function UserAdmin2(): ManagedUser {
    Staff("admin2", "Noura Al-Faisal", "noura@haramainvolunteers.org", "+966 55 444 3333", Admin,
      "2025-01-15T10:15:30Z", "2025-04-09T16:20:00Z", None, None)
  }

  function UserSuper1(): ManagedUser {
    Staff("super1", "Abdullah Al-Sheikh", "abdullah@haramainvolunteers.org", "+966 50 123 0000", SuperAdmin,
      "2025-01-01T08:00:00Z", "2025-04-10T18:45:10Z", None, None)
  }

  lemma MockIdsUnique()
    ensures IdsUnique(MockUsers())
  {
    var t := MockUsers();
    assert t[0].id == "p1" && t[1].id == "p2" && t[2].id == "p3";
    assert t[3].id == "a1" && t[4].id == "a2" && t[5].id == "a3";
    assert t[6].id == "admin1" && t[7].id == "admin2" && t[8].id == "super1";
  }

  /** Asking for role 'admin' on the built-in table returns the two admins and not the super admin. */
  lemma AdminRoleQueryExcludesSuperAdmin()
    ensures Query(MockUsers(), NoQuery.(role := Some(Admin))) == [MockUsers()[6], MockUsers()[7]]
  {
    var t := MockUsers();
    var q := NoQuery.(role := Some(Admin));
    var keep := (u: ManagedUser) => Keeps(q, u);
    assert Filter(t[8..], keep) == [];
    assert Filter(t[7..], keep) == [t[7]];
    assert Filter(t[6..], keep) == [t[6], t[7]];
    assert Filter(t[5..], keep) == [t[6], t[7]];
    assert Filter(t[4..], keep) == [t[6], t[7]];
    assert Filter(t[3..], keep) == [t[6], t[7]];
    assert Filter(t[2..], keep) == [t[6], t[7]];
    assert Filter(t[1..], keep) == [t[6], t[7]];
  }
}
