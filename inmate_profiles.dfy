/**
 * frontend/src/pages/InmateProfiles.jsx: the inmate list page. Its search and status
 * filter, the grouping by registrant (built by a loop, then sorted by key), the status
 * counters, the expand/collapse map of the groups, and the local effect of the delete and
 * add handlers. The fetches themselves are left out: their outcomes are inputs.
 */
module InmateProfiles {
  import opened Common

  /** An inmate as the page receives it; absent JSON fields are None. */
  datatype Inmate = Inmate(
    dbId: int, id: Option<string>, name: Option<string>, status: Option<string>,
    registrantEmail: Option<string>, registrantName: Option<string>)

  /** `field?.toLowerCase().includes(query.toLowerCase())`: false when the field is absent. */
  predicate FieldMatches(field: Option<string>, query: string)
  {
    field.Some? && Contains(Lower(field.value), Lower(query))
  }

  /** The predicate of `filteredInmates`. */
  predicate Kept(i: Inmate, query: string, filterStatus: string)
  {
    && (FieldMatches(i.name, query) || FieldMatches(i.id, query))
    && (filterStatus == "all" || i.status == Some(filterStatus))
  }

  /** `inmates.filter(...)`: the kept inmates in list order. */
  function FilteredInmates(inmates: seq<Inmate>, query: string, filterStatus: string): (r: seq<Inmate>)
    ensures |r| <= |inmates|
    ensures forall x :: x in r <==> x in inmates && Kept(x, query, filterStatus)
  {
    if inmates == [] then []
    else
      var init, last := inmates[..|inmates| - 1], inmates[|inmates| - 1];
      assert forall x :: x in inmates <==> x in init || x == last;
      FilteredInmates(init, query, filterStatus) + (if Kept(last, query, filterStatus) then [last] else [])
  }

  /**
   * Filtering distributes over concatenation; with the membership and length clauses on a
   * single element, this fixes the kept inmates as the input's matches in input order.
   */
  lemma {:induction false} FilteredInmatesAppend(a: seq<Inmate>, b: seq<Inmate>, query: string, filterStatus: string)
    ensures FilteredInmates(a + b, query, filterStatus) == FilteredInmates(a, query, filterStatus) + FilteredInmates(b, query, filterStatus)
  {
    if b == [] {
      assert a + b == a;
    } else {
      var init, last := b[..|b| - 1], b[|b| - 1];
      var tail := if Kept(last, query, filterStatus) then [last] else [];
      assert (a + b)[..|a + b| - 1] == a + init;
      assert (a + b)[|a + b| - 1] == last;
      assert FilteredInmates(b, query, filterStatus) == FilteredInmates(init, query, filterStatus) + tail;
      FilteredInmatesAppend(a, init, query, filterStatus);
      calc {
        FilteredInmates(a + b, query, filterStatus);
        FilteredInmates(a + init, query, filterStatus) + tail;
        (FilteredInmates(a, query, filterStatus) + FilteredInmates(init, query, filterStatus)) + tail;
        FilteredInmates(a, query, filterStatus) + (FilteredInmates(init, query, filterStatus) + tail);
      }
    }
  }

  /**
   * An empty search with the 'all' filter still drops the inmates with neither a name nor
   * an id: optional chaining yields undefined for them.
   */
  lemma EmptySearchKeepsIdentified(i: Inmate)
    ensures Kept(i, "", "all") <==> i.name.Some? || i.id.Some?
  {
    if i.name.Some? { ContainsEmpty(Lower(i.name.value)); }
    if i.id.Some? { ContainsEmpty(Lower(i.id.value)); }
  }

  /** The group an inmate goes to: `inmate.registrantEmail || 'Unassigned'`. */
  function GroupKey(i: Inmate): string
  {
    if Truthy(i.registrantEmail) then i.registrantEmail.value else "Unassigned"
  }

  /** The text before the first '@' (`email.split('@')[0]`). */
  function LocalPart(email: string): (r: string)
    ensures r <= email
    ensures forall k :: 0 <= k < |r| ==> r[k] != '@'
    ensures |r| < |email| ==> email[|r|] == '@'
  {
    if email == [] || email[0] == '@' then [] else [email[0]] + LocalPart(email[1..])
  }

  /** registrantName, else the email's local part, else 'Unassigned' (each only when truthy). */
  function DisplayName(i: Inmate): (r: string)
    ensures Truthy(i.registrantName) ==> r == i.registrantName.value
    ensures !Truthy(i.registrantName) && Truthy(i.registrantEmail) && LocalPart(i.registrantEmail.value) != "" ==>
              r == LocalPart(i.registrantEmail.value)
    ensures r != ""
  {
    if Truthy(i.registrantName) then i.registrantName.value
    else if Truthy(i.registrantEmail) && LocalPart(i.registrantEmail.value) != "" then LocalPart(i.registrantEmail.value)
    else "Unassigned"
  }

  /** One group: named after the first inmate that opened it. */
  datatype Group = Group(registrantEmail: Option<string>, registrantName: string, inmates: seq<Inmate>)

  /** The inmates of s that belong to group k, in the order of s. */
  function Members(s: seq<Inmate>, k: string): (r: seq<Inmate>)
    ensures forall x :: x in r <==> x in s && GroupKey(x) == k
  {
    if s == [] then []
    else
      var init, last := s[..|s| - 1], s[|s| - 1];
      assert forall x :: x in s <==> x in init || x == last;
      Members(init, k) + (if GroupKey(last) == k then [last] else [])
  }

  /** The `groups` object after the forEach has seen s. */
  function Groups(s: seq<Inmate>): (g: map<string, Group>)
  {
    if s == [] then map[]
    else
      var g, x := Groups(s[..|s| - 1]), s[|s| - 1];
      var k := GroupKey(x);
      if k in g then g[k := g[k].(inmates := g[k].inmates + [x])]
      else g[k := Group(x.registrantEmail, DisplayName(x), [x])]
  }

  /** The first inmate of s in group k. */
  function FirstOf(s: seq<Inmate>, k: string): (r: Option<Inmate>)
    ensures r.Some? ==> r.value in s && GroupKey(r.value) == k
    ensures r.None? <==> forall x :: x in s ==> GroupKey(x) != k
  {
    if s == [] then None
    else if GroupKey(s[0]) == k then Some(s[0])
    else FirstOf(s[1..], k)
  }

  lemma {:induction false} FirstOfSnoc(s: seq<Inmate>, x: Inmate, k: string)
    ensures FirstOf(s + [x], k) == if FirstOf(s, k).Some? then FirstOf(s, k)
                                   else if GroupKey(x) == k then Some(x) else None
  {
    if s != [] {
      assert (s + [x])[1..] == s[1..] + [x];
      FirstOfSnoc(s[1..], x, k);
    }
  }

  /**
   * Every filtered inmate lands in exactly the group of its key, in filtered order; the
   * keys are exactly the inmates' keys; a group takes its email and name from its first
   * inmate.
   */
  lemma {:induction false} GroupsCharacterised(s: seq<Inmate>, k: string)
    ensures k in Groups(s) <==> FirstOf(s, k).Some?
    ensures k in Groups(s) ==>
              && Groups(s)[k].inmates == Members(s, k)
              && Groups(s)[k].registrantEmail == FirstOf(s, k).value.registrantEmail
              && Groups(s)[k].registrantName == DisplayName(FirstOf(s, k).value)
  {
    if s != [] {
      var init, x := s[..|s| - 1], s[|s| - 1];
      GroupsCharacterised(init, k);
      FirstOfSnoc(init, x, k);
      assert s == init + [x];
      if GroupKey(x) != k {
        GroupsOtherKey(s, k);
      } else if k in Groups(init) {
        GroupsJoinKey(s);
      } else {
        MembersNone(init, k);
        GroupsNewKey(s);
      }
    }
  }

  /** The last inmate leaves the groups of other keys as they were. */
  lemma GroupsOtherKey(s: seq<Inmate>, k: string)
    requires s != [] && GroupKey(s[|s| - 1]) != k
    ensures k in Groups(s) <==> k in Groups(s[..|s| - 1])
    ensures k in Groups(s) ==> Groups(s)[k] == Groups(s[..|s| - 1])[k]
    ensures Members(s, k) == Members(s[..|s| - 1], k)
  {
  }

  /** The last inmate joins the existing group of its key at the end. */
  lemma GroupsJoinKey(s: seq<Inmate>)
    requires s != [] && GroupKey(s[|s| - 1]) in Groups(s[..|s| - 1])
    ensures var k, g := GroupKey(s[|s| - 1]), Groups(s[..|s| - 1]);
            && k in Groups(s)
            && Groups(s)[k] == g[k].(inmates := g[k].inmates + [s[|s| - 1]])
            && Members(s, k) == Members(s[..|s| - 1], k) + [s[|s| - 1]]
  {
  }

  /** The last inmate opens a new group of its key. */
  lemma GroupsNewKey(s: seq<Inmate>)
    requires s != [] && GroupKey(s[|s| - 1]) !in Groups(s[..|s| - 1])
    ensures var x := s[|s| - 1];
            && GroupKey(x) in Groups(s)
            && Groups(s)[GroupKey(x)] == Group(x.registrantEmail, DisplayName(x), [x])
            && Members(s, GroupKey(x)) == Members(s[..|s| - 1], GroupKey(x)) + [x]
  {
  }

  lemma {:induction false} MembersNone(s: seq<Inmate>, k: string)
    requires forall x :: x in s ==> GroupKey(x) != k
    ensures Members(s, k) == []
  {
    if s != [] {
      var init := s[..|s| - 1];
      assert forall x :: x in init ==> x in s;
      MembersNone(init, k);
    }
  }

  /** The strict order the keys are sorted in: localeCompare, read as code-unit order. */
  predicate StrictlySorted(keys: seq<string>)
  {
    forall i, j :: 0 <= i < j < |keys| ==> LexLess(keys[i], keys[j])
  }

  function InsertKey(x: string, s: seq<string>): (r: seq<string>)
    ensures |r| == |s| + 1
    ensures multiset(r) == multiset(s) + multiset{x}
  {
    if s == [] then [x]
    else if LexLess(x, s[0]) then [x] + s
    else
      assert s == [s[0]] + s[1..];
      [s[0]] + InsertKey(x, s[1..])
  }

  lemma {:induction false} InsertKeySorted(x: string, s: seq<string>)
    requires StrictlySorted(s) && x !in s
    ensures StrictlySorted(InsertKey(x, s))
  {
    var r := InsertKey(x, s);
    if s == [] {
    } else if LexLess(x, s[0]) {
      forall j | 1 <= j < |r| ensures LexLess(r[0], r[j]) {
        if j > 1 { LexLessTransitive(x, s[0], s[j - 1]); }
      }
    } else {
      LexLessTotal(x, s[0]);
      assert StrictlySorted(s[1..]);
      InsertKeySorted(x, s[1..]);
      var t := InsertKey(x, s[1..]);
      forall j | 0 <= j < |t| ensures LexLess(s[0], t[j]) {
        assert t[j] in multiset(t);
        if t[j] != x {
          assert t[j] in s[1..];
          var m :| 1 <= m < |s| && s[m] == t[j];
        }
      }
    }
  }

  /** The keys sorted: insertion of each key into the sorted rest. */
  function SortKeys(keys: seq<string>): (r: seq<string>)
    ensures multiset(r) == multiset(keys)
  {
    if keys == [] then [] else
      assert keys == [keys[0]] + keys[1..];
      InsertKey(keys[0], SortKeys(keys[1..]))
  }

  predicate Distinct(keys: seq<string>)
  {
    forall i, j :: 0 <= i < j < |keys| ==> keys[i] != keys[j]
  }

  lemma {:induction false} SortKeysSorted(keys: seq<string>)
    requires Distinct(keys)
    ensures StrictlySorted(SortKeys(keys))
  {
    if keys != [] {
      assert Distinct(keys[1..]);
      SortKeysSorted(keys[1..]);
      assert keys[0] !in keys[1..];
      assert keys[0] !in multiset(SortKeys(keys[1..]));
      InsertKeySorted(keys[0], SortKeys(keys[1..]));
    }
  }

  /** A group's title row: its key and the group. */
  datatype Entry = Entry(key: string, group: Group)

  function EntryKeys(entries: seq<Entry>): (keys: seq<string>)
    ensures |keys| == |entries|
    ensures forall j :: 0 <= j < |entries| ==> keys[j] == entries[j].key
  {
    if entries == [] then [] else [entries[0].key] + EntryKeys(entries[1..])
  }

  /** `Object.entries` over the sorted keys: each key with its group. */
  function MakeEntries(keys: seq<string>, groups: map<string, Group>): (es: seq<Entry>)
    requires forall k :: k in keys ==> k in groups
    ensures EntryKeys(es) == keys
    ensures forall e :: e in es ==> e.key in groups && e.group == groups[e.key]
  {
    if keys == [] then []
    else
      var rest := MakeEntries(keys[1..], groups);
      assert EntryKeys([Entry(keys[0], groups[keys[0]])] + rest) == [keys[0]] + EntryKeys(rest);
      [Entry(keys[0], groups[keys[0]])] + rest
  }

  /** The forEach of `groupedInmates`: the groups object and its keys in order of creation. */
  method BuildGroups(filtered: seq<Inmate>) returns (groups: map<string, Group>, order: seq<string>)
    ensures groups == Groups(filtered)
    ensures Distinct(order)
    ensures forall k :: k in order <==> k in groups
  {
    groups := map[];
    order := [];
    var i := 0;
    while i < |filtered|
      invariant 0 <= i <= |filtered|
      invariant groups == Groups(filtered[..i])
      invariant Distinct(order)
      invariant forall k :: k in order <==> k in groups
    {
      var inmate := filtered[i];
      assert filtered[..i + 1][..i] == filtered[..i];
      var key := GroupKey(inmate);
      if key !in groups {
        groups := groups[key := Group(inmate.registrantEmail, DisplayName(inmate), [inmate])];
        order := order + [key];
      } else {
        groups := groups[key := groups[key].(inmates := groups[key].inmates + [inmate])];
      }
      i := i + 1;
    }
    assert filtered[..i] == filtered;
  }

  /**
   * `groupedInmates`: None unless grouping is on; else one entry per group, each group
   * as built, sorted by key.
   */
  method GroupInmates(groupByRegistrant: bool, filtered: seq<Inmate>) returns (r: Option<seq<Entry>>)
    ensures !groupByRegistrant <==> r.None?
    ensures r.Some? ==> StrictlySorted(EntryKeys(r.value))
    ensures r.Some? ==> forall e :: e in r.value ==> e.key in Groups(filtered) && e.group == Groups(filtered)[e.key]
    ensures r.Some? ==> forall k :: k in Groups(filtered) ==> k in EntryKeys(r.value)
  {
    if !groupByRegistrant {
      return None;
    }
    var groups, order := BuildGroups(filtered);
    var keys := SortKeys(order);
    SortKeysSorted(order);
    assert forall k :: k in keys <==> k in groups by {
      forall k ensures k in keys <==> k in multiset(order) { }
    }
    r := Some(MakeEntries(keys, groups));
  }

  /** `stats`: how many inmates have a given status. */
  function CountStatus(inmates: seq<Inmate>, status: string): (n: nat)
    ensures n <= |inmates|
  {
    if inmates == [] then 0
    else CountStatus(inmates[..|inmates| - 1], status)
         + (if inmates[|inmates| - 1].status == Some(status) then 1 else 0)
  }

  datatype Stats = Stats(total: nat, escaped: nat, incarcerated: nat, released: nat)

  function StatsOf(inmates: seq<Inmate>): (s: Stats)
    ensures s.total == |inmates|
    ensures s.escaped + s.incarcerated + s.released <= s.total
  {
    StatusCountsBounded(inmates);
    Stats(|inmates|, CountStatus(inmates, "Escaped"), CountStatus(inmates, "Incarcerated"),
          CountStatus(inmates, "Released"))
  }

  /** The three counted statuses are exclusive, so their counts never exceed the total. */
  lemma {:induction false} StatusCountsBounded(inmates: seq<Inmate>)
    ensures CountStatus(inmates, "Escaped") + CountStatus(inmates, "Incarcerated")
            + CountStatus(inmates, "Released") <= |inmates|
  {
    if inmates != [] {
      StatusCountsBounded(inmates[..|inmates| - 1]);
    }
  }

  /** `toggleGroup`: `{...prev, [key]: !prev[key]}`; a key never toggled reads as collapsed. */
  function ToggleExpanded(expanded: map<string, bool>, key: string): (r: map<string, bool>)
    ensures r.Keys == expanded.Keys + {key}
    ensures r[key] == !(key in expanded && expanded[key])
    ensures forall k :: k in expanded && k != key ==> r[k] == expanded[k]
  {
    expanded[key := !(key in expanded && expanded[key])]
  }

  /** Toggling a group twice shows it as it was shown before. */
  lemma ToggleTwice(expanded: map<string, bool>, key: string)
    ensures var twice := ToggleExpanded(ToggleExpanded(expanded, key), key);
            && twice[key] == (key in expanded && expanded[key])
            && forall k :: k in expanded ==> twice[k] == expanded[k]
  {
  }

  /** `prev.filter(i => i.db_id !== selected.db_id)`. */
  function WithoutDbId(inmates: seq<Inmate>, dbId: int): (r: seq<Inmate>)
    ensures |r| <= |inmates|
    ensures forall x :: x in r <==> x in inmates && x.dbId != dbId
  {
    if inmates == [] then []
    else
      var init, last := inmates[..|inmates| - 1], inmates[|inmates| - 1];
      assert forall x :: x in inmates <==> x in init || x == last;
      WithoutDbId(init, dbId) + (if last.dbId != dbId then [last] else [])
  }

  /** Removing a db id that no inmate has leaves the list as it is. */
  lemma {:induction false} WithoutAbsentDbId(inmates: seq<Inmate>, dbId: int)
    requires forall x :: x in inmates ==> x.dbId != dbId
    ensures WithoutDbId(inmates, dbId) == inmates
  {
    if inmates != [] {
      WithoutAbsentDbId(inmates[..|inmates| - 1], dbId);
      assert inmates == inmates[..|inmates| - 1] + [inmates[|inmates| - 1]];
    }
  }

  /** handleAddInmate's guard: a name and a mugshot are needed before anything is sent. */
  function AddInmateError(name: string, hasMugshot: bool): (r: Option<string>)
    ensures r.None? <==> name != "" && hasMugshot
    ensures r.Some? ==> r.value == "Name and mugshot image are required"
  {
    if name == "" || !hasMugshot then Some("Name and mugshot image are required") else None
  }

  /** The page state the handlers change. */
  class InmatePage {
    var inmates: seq<Inmate>
    var expandedGroups: map<string, bool>
    var selected: Option<Inmate>
    var deleteModalOpen: bool
    var error: string

    constructor()
      ensures inmates == [] && expandedGroups == map[] && selected.None? && !deleteModalOpen && error == ""
    {
      inmates := [];
      expandedGroups := map[];
      selected := None;
      deleteModalOpen := false;
      error := "";
    }

    method ToggleGroup(key: string)
      modifies this
      ensures expandedGroups == ToggleExpanded(old(expandedGroups), key)
      ensures inmates == old(inmates) && selected == old(selected) && error == old(error)
      ensures deleteModalOpen == old(deleteModalOpen)
    {
      expandedGroups := ToggleExpanded(expandedGroups, key);
    }

    /** handleDelete: remember the inmate and open the confirmation. */
    method Delete(inmate: Inmate)
      modifies this
      ensures selected == Some(inmate) && deleteModalOpen
      ensures inmates == old(inmates) && expandedGroups == old(expandedGroups) && error == old(error)
    {
      selected := Some(inmate);
      deleteModalOpen := true;
    }

    /**
     * handleConfirmDelete with the server's answer (`deleted`, or the error text it sent):
     * only a confirmed deletion drops the inmates carrying the selected db id.
     */
    method ConfirmDelete(deleted: bool, serverError: Option<string>)
      modifies this
      ensures old(selected).None? ==> inmates == old(inmates) && selected == old(selected) && error == old(error)
      ensures old(selected).Some? && deleted ==>
                && inmates == WithoutDbId(old(inmates), old(selected).value.dbId)
                && selected.None? && !deleteModalOpen && error == old(error)
      ensures old(selected).Some? && !deleted ==>
                && inmates == old(inmates) && selected == old(selected)
                && error == (if Truthy(serverError) then serverError.value else "Failed to delete inmate")
      ensures !(old(selected).Some? && deleted) ==> deleteModalOpen == old(deleteModalOpen)
      ensures expandedGroups == old(expandedGroups)
    {
      if selected.None? {
        return;
      }
      if deleted {
        inmates := WithoutDbId(inmates, selected.value.dbId);
        deleteModalOpen := false;
        selected := None;
      } else {
        error := if Truthy(serverError) then serverError.value else "Failed to delete inmate";
      }
    }

    /** handleAddInmate's validation step: a refused form sets the error and sends nothing. */
    method AddInmate(name: string, hasMugshot: bool) returns (send: bool)
      modifies this
      ensures send <==> AddInmateError(name, hasMugshot).None?
      ensures !send ==> error == AddInmateError(name, hasMugshot).value
      ensures send ==> error == ""
      ensures inmates == old(inmates) && expandedGroups == old(expandedGroups) && selected == old(selected)
              && deleteModalOpen == old(deleteModalOpen)
    {
      var e := AddInmateError(name, hasMugshot);
      if e.Some? {
        error := e.value;
        return false;
      }
      error := "";
      send := true;
    }
  }
}
