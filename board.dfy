/**
 * The project board (getProjectBoardData): which columns a viewer sees and
 * which tasks land in each.
 *
 * The database reads become inputs: the tab table (for the viewer's
 * personal tab), the preference table, the user table, the task table and
 * the tab groups with their tabs and translations as the store returns
 * them (groups by sortOrder, tabs by sortOrder). What remains is the
 * placement of each task (personal column, a tab's column, or dropped)
 * and the role-dependent list of columns.
 */
module ProjectBoard {
  import opened Wrappers
  import opened Schema

  datatype Viewer = Viewer(id: string, role: UserType)

  /** A tab with its translations. */
  datatype TabView = TabView(tab: Tab, translations: seq<Translation>)

  /** A tab group with its translations and its tabs. */
  datatype GroupView = GroupView(group: TabGroup, translations: seq<Translation>, tabs: seq<TabView>)

  /** A fetched task with the role of its creator (None when it has no creator). */
  datatype BoardTask = BoardTask(task: Task, creatorType: Option<UserType>)

  /** ProjectBoardColumn; an absent isPersonal is false. */
  datatype Column = Column(id: int, name: string, color: string, tasks: seq<BoardTask>, isPersonal: bool)

  datatype Board = Board(columns: seq<Column>, user: Viewer)

  // ---------------------------------------------------------------- hidden tabs

  /** getHiddenTabIds: the tabs of the viewer's preferences that are marked not visible. */
  function HiddenTabIds(userId: string, prefs: seq<UserTabPreference>): set<int>
  {
    set i | 0 <= i < |prefs| && prefs[i].userId == userId && !prefs[i].isVisible :: prefs[i].tabId
  }

  /**
   * A tab is hidden iff the viewer has a preference for it marked not
   * visible; without a preference it is not hidden; and since there is
   * one preference per (user, tab), that one record decides.
   */
  lemma HiddenIffPreference(userId: string, prefs: seq<UserTabPreference>, tabId: int)
    requires PreferencesUnique(prefs)
    ensures tabId in HiddenTabIds(userId, prefs) <==>
            exists i :: 0 <= i < |prefs| && prefs[i].userId == userId && prefs[i].tabId == tabId && !prefs[i].isVisible
    ensures !HasPreference(prefs, userId, tabId) ==> tabId !in HiddenTabIds(userId, prefs)
    ensures forall i :: 0 <= i < |prefs| && prefs[i].userId == userId && prefs[i].tabId == tabId ==>
            (tabId in HiddenTabIds(userId, prefs) <==> !prefs[i].isVisible)
  {
    var hidden := HiddenTabIds(userId, prefs);
    forall i | 0 <= i < |prefs| && prefs[i].userId == userId && prefs[i].tabId == tabId
      ensures tabId in hidden <==> !prefs[i].isVisible
    {
      if tabId in hidden {
        var j :| 0 <= j < |prefs| && prefs[j].userId == userId && !prefs[j].isVisible && prefs[j].tabId == tabId;
        PreferenceUnique(prefs, i, j);
      }
    }
  }

  // ---------------------------------------------------------------- personal tab

  /** The first tab owned by the viewer, in table order. */
  function FindPersonalTab(tabs: seq<TabView>, userId: string): (r: Option<TabView>)
    ensures r.None? <==> forall i :: 0 <= i < |tabs| ==> tabs[i].tab.userId != Some(userId)
    ensures r.Some? ==> exists i :: 0 <= i < |tabs| && tabs[i] == r.value && r.value.tab.userId == Some(userId)
                          && forall j :: 0 <= j < i ==> tabs[j].tab.userId != Some(userId)
  {
    if tabs == [] then None
    else if tabs[0].tab.userId == Some(userId) then Some(tabs[0])
    else
      var r := FindPersonalTab(tabs[1..], userId);
      assert r.Some? ==> exists i :: 1 <= i < |tabs| && tabs[i] == r.value
                          && forall j :: 0 <= j < i ==> tabs[j].tab.userId != Some(userId) by {
        if r.Some? {
          var i :| 0 <= i < |tabs[1..]| && tabs[1..][i] == r.value && r.value.tab.userId == Some(userId)
                   && forall j :: 0 <= j < i ==> tabs[1..][j].tab.userId != Some(userId);
          assert tabs[i + 1] == r.value;
          forall j | 0 <= j < i + 1 ensures tabs[j].tab.userId != Some(userId) {
            if j > 0 { assert tabs[j] == tabs[1..][j - 1]; }
          }
        }
      }
      assert r.None? ==> forall i :: 0 <= i < |tabs| ==> tabs[i].tab.userId != Some(userId) by {
        if r.None? {
          forall i | 0 <= i < |tabs| ensures tabs[i].tab.userId != Some(userId) {
            if i > 0 { assert tabs[i] == tabs[1..][i - 1]; }
          }
        }
      }
      r
  }

  /** `personalTab?.id`. */
  function PersonalTabId(personalTab: Option<TabView>): Option<int>
  {
    if personalTab.Some? then Some(personalTab.value.tab.id) else None
  }

  // ---------------------------------------------------------------- task scoping

  /** The ids of the users of type 'client', in table order. */
  function ClientUserIds(users: seq<User>): (ids: seq<string>)
    ensures forall id :: id in ids <==> exists i :: 0 <= i < |users| && users[i].userType == Client && users[i].id == id
  {
    if users == [] then []
    else
      var front := ClientUserIds(users[..|users| - 1]);
      var last := users[|users| - 1];
      assert forall i :: 0 <= i < |users| - 1 ==> users[..|users| - 1][i] == users[i];
      front + (if last.userType == Client then [last.id] else [])
  }

  /** The task where-clause: the admin one (lines 69-78) or the client one (lines 86-89). */
  predicate InScope(viewer: Viewer, clientIds: seq<string>, t: Task) {
    if viewer.role == Admin then
      t.createdById == Some(viewer.id) || t.assignedToUserId == Some(viewer.id)
      || (|clientIds| > 0 && t.createdById.Some? && t.createdById.value in clientIds)
    else
      t.createdById == Some(viewer.id) || t.assignedToUserId == Some(viewer.id)
  }

  /** The `creator` relation: the role of the user whose id is the task's createdById. */
  function CreatorType(users: seq<User>, createdById: Option<string>): (r: Option<UserType>)
    ensures r.Some? ==> exists i :: 0 <= i < |users| && Some(users[i].id) == createdById && users[i].userType == r.value
    ensures r.None? ==> forall i :: 0 <= i < |users| ==> Some(users[i].id) != createdById
  {
    if users == [] then None
    else if Some(users[0].id) == createdById then Some(users[0].userType)
    else
      var r := CreatorType(users[1..], createdById);
      assert forall i :: 1 <= i < |users| ==> users[i] == users[1..][i - 1];
      r
  }

  /** The fetched tasks, in table order, each with its creator's role. */
  function FetchTasks(viewer: Viewer, users: seq<User>, rows: seq<Task>): seq<BoardTask>
  {
    if rows == [] then []
    else
      var last := rows[|rows| - 1];
      FetchTasks(viewer, users, rows[..|rows| - 1])
      + (if InScope(viewer, ClientUserIds(users), last) then [BoardTask(last, CreatorType(users, last.createdById))] else [])
  }

  /** A task is fetched iff it is in scope; it comes with its creator's role. */
  lemma {:induction false} FetchTasksIff(viewer: Viewer, users: seq<User>, rows: seq<Task>, x: BoardTask)
    ensures x in FetchTasks(viewer, users, rows) <==>
            x.task in rows && InScope(viewer, ClientUserIds(users), x.task) && x.creatorType == CreatorType(users, x.task.createdById)
  {
    if rows != [] {
      var front := rows[..|rows| - 1];
      FetchTasksIff(viewer, users, front, x);
      assert rows == front + [rows[|rows| - 1]];
    }
  }

  /**
   * An admin sees the tasks created by them, assigned to them, or created
   * by any user of type 'client'; a client the tasks created by or
   * assigned to them. Whether a task is done plays no part.
   */
  lemma ScopeByRole(viewer: Viewer, users: seq<User>, t: Task)
    ensures viewer.role == Admin ==>
            (InScope(viewer, ClientUserIds(users), t) <==>
             t.createdById == Some(viewer.id) || t.assignedToUserId == Some(viewer.id)
             || exists i :: 0 <= i < |users| && users[i].userType == Client && t.createdById == Some(users[i].id))
    ensures viewer.role == Client ==>
            (InScope(viewer, ClientUserIds(users), t) <==> t.createdById == Some(viewer.id) || t.assignedToUserId == Some(viewer.id))
    ensures InScope(viewer, ClientUserIds(users), t) == InScope(viewer, ClientUserIds(users), t.(isDone := !t.isDone))
  {
    var ids := ClientUserIds(users);
    if viewer.role == Admin && t.createdById.Some? {
      if exists i :: 0 <= i < |users| && users[i].userType == Client && t.createdById == Some(users[i].id) {
        var i :| 0 <= i < |users| && users[i].userType == Client && t.createdById == Some(users[i].id);
        assert users[i].id in ids;
      }
    }
  }

  // ---------------------------------------------------------------- names

  /** `translations.find(t => t.language === locale)`, as an index. */
  function FindLanguage(ts: seq<Translation>, locale: string): (k: Option<nat>)
    ensures k.Some? ==> k.value < |ts| && ts[k.value].language == locale
                        && forall j :: 0 <= j < k.value ==> ts[j].language != locale
    ensures k.None? ==> forall j :: 0 <= j < |ts| ==> ts[j].language != locale
  {
    if ts == [] then None
    else if ts[0].language == locale then Some(0)
    else
      var k := FindLanguage(ts[1..], locale);
      assert forall j :: 1 <= j < |ts| ==> ts[j] == ts[1..][j - 1];
      if k.Some? then Some(k.value + 1) else None
  }

  /** `find(...) || translations[0]`: the translation in the locale, else the first one. */
  function ChosenTranslation(ts: seq<Translation>, locale: string): Option<Translation>
  {
    var k := FindLanguage(ts, locale);
    if k.Some? then Some(ts[k.value]) else if |ts| > 0 then Some(ts[0]) else None
  }

  /** `trans?.name || fallback`: an absent translation or an empty name gives the fallback. */
  function ResolveName(ts: seq<Translation>, locale: string, fallback: string): (name: string)
    ensures ts == [] ==> name == fallback
    ensures name == fallback || (name != "" && exists i :: 0 <= i < |ts| && ts[i].name == name)
  {
    var chosen := ChosenTranslation(ts, locale);
    if chosen.Some? && chosen.value.name != "" then chosen.value.name else fallback
  }

  /**
   * With one translation per language (the UNIQUE constraint, all of one
   * owner), the translation in the locale gives the name; when the locale
   * has none, the first translation does; an empty name falls back.
   */
  lemma ResolveNameOrder(ts: seq<Translation>, locale: string, fallback: string)
    requires TranslationsUnique(ts) && forall j :: 0 <= j < |ts| ==> ts[j].ownerId == ts[0].ownerId
    ensures forall i :: 0 <= i < |ts| && ts[i].language == locale ==>
            ResolveName(ts, locale, fallback) == (if ts[i].name != "" then ts[i].name else fallback)
    ensures (forall i :: 0 <= i < |ts| ==> ts[i].language != locale) && ts != [] ==>
            ResolveName(ts, locale, fallback) == (if ts[0].name != "" then ts[0].name else fallback)
  {
    var k := FindLanguage(ts, locale);
    forall i | 0 <= i < |ts| && ts[i].language == locale
      ensures ResolveName(ts, locale, fallback) == (if ts[i].name != "" then ts[i].name else fallback)
    {
      TranslationUnique(ts, i, k.value);
    }
  }

  // ---------------------------------------------------------------- placement

  /** What the distribution loop reads: the viewer, `personalTabId` and the hidden tabs. */
  datatype Context = Context(viewer: Viewer, personalTabId: Option<int>, hidden: set<int>)

  /** Where one task goes. */
  datatype Placement = Dropped | Personal | InTab(tabId: int)

  /** JavaScript truthiness of `personalTabId`: present and not 0. */
  predicate HasPersonalTab(ctx: Context) {
    ctx.personalTabId.Some? && ctx.personalTabId.value != 0
  }

  /** `if (personalTabId) targetId = personalTabId; else targetId = 0;` */
  function PersonalTarget(ctx: Context): int
  {
    if HasPersonalTab(ctx) then ctx.personalTabId.value else 0
  }

  /** isClientCreated: the creator's type is 'client'. */
  predicate IsClientCreated(t: BoardTask) {
    t.creatorType == Some(Client)
  }

  /** `!t.assignedToUserId`: no assignee, or an empty one. */
  predicate IsUnassigned(t: Task) {
    t.assignedToUserId.None? || t.assignedToUserId.value == ""
  }

  /**
   * `targetId` after lines 139-167: the personal target for a client or a
   * client intake task, else the task's own tab; None when the task is
   * dropped (an admin's regular task in a hidden tab).
   */
  function Target(ctx: Context, t: BoardTask): (r: Option<int>)
    ensures r.None? <==> ctx.viewer.role == Admin && !(IsClientCreated(t) && IsUnassigned(t.task)) && t.task.tabId in ctx.hidden
    ensures r.Some? && (ctx.viewer.role == Client || (IsClientCreated(t) && IsUnassigned(t.task))) ==>
            r.value == 0 || (HasPersonalTab(ctx) && r.value == ctx.personalTabId.value)
    ensures r.Some? && ctx.viewer.role == Admin && !(IsClientCreated(t) && IsUnassigned(t.task)) ==> r.value == t.task.tabId
  {
    if ctx.viewer.role == Client then Some(PersonalTarget(ctx))
    else if IsClientCreated(t) && IsUnassigned(t.task) then Some(PersonalTarget(ctx))
    else if t.task.tabId in ctx.hidden then assert ctx.viewer.role == Admin; None
    else Some(t.task.tabId)
  }

  /** The body of the distribution loop for one task (lines 139-174). */
  function Place(ctx: Context, t: BoardTask): Placement
  {
    var target := Target(ctx, t);
    if target.None? then Dropped
    else if (HasPersonalTab(ctx) && target.value == ctx.personalTabId.value) || target.value == 0 then Personal
    else InTab(target.value)
  }

  /**
   * A task lands in a tab's entry only for an admin, only in its own tab,
   * and only when that tab is neither hidden, nor 0, nor the personal tab;
   * it is dropped exactly when it is an admin's regular task in a hidden tab.
   */
  lemma PlaceFacts(ctx: Context, t: BoardTask)
    ensures Place(ctx, t).InTab? ==> ctx.viewer.role == Admin && Place(ctx, t).tabId == t.task.tabId
    ensures Place(ctx, t).InTab? ==> Place(ctx, t).tabId !in ctx.hidden && Place(ctx, t).tabId != 0
                                     && Some(Place(ctx, t).tabId) != ctx.personalTabId
    ensures Place(ctx, t) == Dropped <==>
            ctx.viewer.role == Admin && !(IsClientCreated(t) && IsUnassigned(t.task)) && t.task.tabId in ctx.hidden
  {
  }

  /** The tasks placed at `w`, in fetch order. */
  function Bucket(ctx: Context, tasks: seq<BoardTask>, w: Placement): seq<BoardTask>
  {
    if tasks == [] then []
    else
      var front := Bucket(ctx, tasks[..|tasks| - 1], w);
      var last := tasks[|tasks| - 1];
      front + (if Place(ctx, last) == w then [last] else [])
  }

  /** Bucketing splits over concatenation: a bucket keeps fetch order. */
  lemma {:induction false} BucketAppend(ctx: Context, a: seq<BoardTask>, b: seq<BoardTask>, w: Placement)
    ensures Bucket(ctx, a + b, w) == Bucket(ctx, a, w) + Bucket(ctx, b, w)
  {
    if b == [] {
      assert a + b == a;
    } else {
      var front := b[..|b| - 1];
      assert (a + b)[..|a + b| - 1] == a + front;
      assert (a + b)[|a + b| - 1] == b[|b| - 1];
      BucketAppend(ctx, a, front, w);
    }
  }

  /** One more task: it joins the end of its own bucket and no other. */
  lemma BucketStep(ctx: Context, tasks: seq<BoardTask>, i: int, w: Placement)
    requires 0 <= i < |tasks|
    ensures Bucket(ctx, tasks[..i + 1], w) == Bucket(ctx, tasks[..i], w) + (if Place(ctx, tasks[i]) == w then [tasks[i]] else [])
  {
    assert tasks[..i + 1][..i] == tasks[..i];
  }

  /** A task is in the bucket of `w` iff it is one of the tasks and is placed at `w`. */
  lemma {:induction false} BucketIff(ctx: Context, tasks: seq<BoardTask>, w: Placement, x: BoardTask)
    ensures x in Bucket(ctx, tasks, w) <==> x in tasks && Place(ctx, x) == w
  {
    if tasks != [] {
      var front := tasks[..|tasks| - 1];
      BucketIff(ctx, front, w, x);
      assert tasks == front + [tasks[|tasks| - 1]];
    }
  }

  /** When every task is placed at `w`, the bucket is all of them. */
  lemma {:induction false} BucketAll(ctx: Context, tasks: seq<BoardTask>, w: Placement)
    requires forall i :: 0 <= i < |tasks| ==> Place(ctx, tasks[i]) == w
    ensures Bucket(ctx, tasks, w) == tasks
  {
    if tasks != [] {
      var front := tasks[..|tasks| - 1];
      forall i | 0 <= i < |front| ensures Place(ctx, front[i]) == w {
        assert front[i] == tasks[i];
      }
      BucketAll(ctx, front, w);
      assert Place(ctx, tasks[|tasks| - 1]) == w;
      assert tasks == front + [tasks[|tasks| - 1]];
    }
  }

  /** The `tasksMap` the loop builds: a tab's entry exists iff some task is placed in it. */
  ghost predicate MapsBuckets(ctx: Context, tasks: seq<BoardTask>, tasksMap: map<int, seq<BoardTask>>) {
    (forall k :: k in tasksMap ==> tasksMap[k] == Bucket(ctx, tasks, InTab(k)))
    && (forall k :: k !in tasksMap ==> Bucket(ctx, tasks, InTab(k)) == [])
  }

  /**
   * One loop step keeps the map equal to the tab buckets of the tasks seen
   * so far: a task placed in a tab is appended to that tab's entry (created
   * empty if missing), any other task leaves the map alone.
   */
  lemma MapsBucketsStep(ctx: Context, tasks: seq<BoardTask>, i: int,
                        before: map<int, seq<BoardTask>>, after: map<int, seq<BoardTask>>)
    requires 0 <= i < |tasks| && MapsBuckets(ctx, tasks[..i], before)
    requires Place(ctx, tasks[i]).InTab? ==>
             var k := Place(ctx, tasks[i]).tabId;
             after == before[k := (if k in before then before[k] else []) + [tasks[i]]]
    requires !Place(ctx, tasks[i]).InTab? ==> after == before
    requires forall k :: k in before ==> before[k] != []
    ensures MapsBuckets(ctx, tasks[..i + 1], after)
    ensures forall k :: k in after ==> after[k] != []
  {
    forall k | k in after ensures after[k] == Bucket(ctx, tasks[..i + 1], InTab(k)) && after[k] != [] {
      BucketStep(ctx, tasks, i, InTab(k));
    }
    forall k | k !in after ensures Bucket(ctx, tasks[..i + 1], InTab(k)) == [] {
      BucketStep(ctx, tasks, i, InTab(k));
    }
  }

  /**
   * One pass of the distribution loop: a task whose target is the personal
   * tab (or 0) joins the personal list, one with another target is appended
   * to that tab's entry (created if missing), a dropped one changes nothing.
   */
  lemma DistributeStep(ctx: Context, tasks: seq<BoardTask>, i: int,
                       personal: seq<BoardTask>, before: map<int, seq<BoardTask>>,
                       personalAfter: seq<BoardTask>, after: map<int, seq<BoardTask>>)
    requires 0 <= i < |tasks|
    requires personal == Bucket(ctx, tasks[..i], Personal) && MapsBuckets(ctx, tasks[..i], before)
    requires forall k :: k in before ==> before[k] != []
    requires Target(ctx, tasks[i]).None? ==> personalAfter == personal && after == before
    requires Target(ctx, tasks[i]).Some? ==>
             var target := Target(ctx, tasks[i]).value;
             if (HasPersonalTab(ctx) && target == ctx.personalTabId.value) || target == 0
             then personalAfter == personal + [tasks[i]] && after == before
             else personalAfter == personal && after == before[target := (if target in before then before[target] else []) + [tasks[i]]]
    ensures personalAfter == Bucket(ctx, tasks[..i + 1], Personal)
    ensures MapsBuckets(ctx, tasks[..i + 1], after)
    ensures forall k :: k in after ==> after[k] != []
  {
    BucketStep(ctx, tasks, i, Personal);
    MapsBucketsStep(ctx, tasks, i, before, after);
  }

  /** Lines 139-167 for one task: its `targetId`, or that it is dropped. */
  method TargetOf(ctx: Context, t: BoardTask) returns (targetId: int, dropped: bool)
    ensures dropped <==> Target(ctx, t).None?
    ensures !dropped ==> targetId == Target(ctx, t).value
  {
    targetId := t.task.tabId;
    dropped := false;
    if ctx.viewer.role == Client {
      if HasPersonalTab(ctx) { targetId := ctx.personalTabId.value; } else { targetId := 0; }
    } else {
      var clientOptions := IsClientCreated(t);
      var isUnassigned := !(t.task.assignedToUserId.Some? && t.task.assignedToUserId.value != "");
      if clientOptions && isUnassigned {
        if HasPersonalTab(ctx) { targetId := ctx.personalTabId.value; } else { targetId := 0; }
      } else if t.task.tabId in ctx.hidden {
        dropped := true;
      }
    }
  }

  /** The distribution loop (lines 138-175). */
  method Distribute(ctx: Context, tasks: seq<BoardTask>) returns (personal: seq<BoardTask>, tasksMap: map<int, seq<BoardTask>>)
    ensures personal == Bucket(ctx, tasks, Personal)
    ensures MapsBuckets(ctx, tasks, tasksMap)
    ensures forall k :: k in tasksMap ==> tasksMap[k] != []
  {
    personal := [];
    tasksMap := map[];
    var i := 0;
    assert tasks[..0] == [];
    while i < |tasks|
      invariant 0 <= i <= |tasks|
      invariant personal == Bucket(ctx, tasks[..i], Personal)
      invariant MapsBuckets(ctx, tasks[..i], tasksMap)
      invariant forall k :: k in tasksMap ==> tasksMap[k] != []
    {
      var t := tasks[i];
      var targetId, dropped := TargetOf(ctx, t);
      ghost var personalBefore, before := personal, tasksMap;
      if !dropped {
        if (HasPersonalTab(ctx) && targetId == ctx.personalTabId.value) || targetId == 0 {
          personal := personal + [t];
        } else {
          if targetId !in tasksMap {
            tasksMap := tasksMap[targetId := []];
          }
          tasksMap := tasksMap[targetId := tasksMap[targetId] + [t]];
          assert tasksMap == before[targetId := (if targetId in before then before[targetId] else []) + [t]];
        }
      }
      DistributeStep(ctx, tasks, i, personalBefore, before, personal, tasksMap);
      i := i + 1;
    }
    assert tasks[..i] == tasks;
  }

  // ---------------------------------------------------------------- columns

  /** A tab the admin loop emits: not hidden and not the personal tab (lines 184-185). */
  predicate Emitted(ctx: Context, tv: TabView) {
    tv.tab.id !in ctx.hidden && Some(tv.tab.id) != ctx.personalTabId
  }

  /** An emitted tab: the position of its group, its position in the group, the group record, the tab. */
  datatype Slot = Slot(groupIndex: nat, tabIndex: nat, group: TabGroup, tab: TabView)

  /** The emitted tabs of the group at `groupIndex`, in the given order. */
  function GroupSlots(ctx: Context, groupIndex: nat, group: TabGroup, tabs: seq<TabView>): seq<Slot>
  {
    if tabs == [] then []
    else
      var last := tabs[|tabs| - 1];
      GroupSlots(ctx, groupIndex, group, tabs[..|tabs| - 1])
      + (if Emitted(ctx, last) then [Slot(groupIndex, |tabs| - 1, group, last)] else [])
  }

  /** The emitted tabs of all groups, group by group (lines 182-195). */
  function Slots(ctx: Context, groups: seq<GroupView>): seq<Slot>
  {
    if groups == [] then []
    else
      var last := groups[|groups| - 1];
      Slots(ctx, groups[..|groups| - 1]) + GroupSlots(ctx, |groups| - 1, last.group, last.tabs)
  }

  /** An admin's column for a tab (lines 187-193). */
  function TabColumn(tv: TabView, locale: string, tasks: seq<BoardTask>): Column
  {
    Column(tv.tab.id, ResolveName(tv.translations, locale, "Unnamed Tab"), tv.tab.color, tasks, false)
  }

  /** The tab columns for the slots, each with the tasks placed in its tab. */
  function SlotColumns(ctx: Context, slots: seq<Slot>, locale: string, tasks: seq<BoardTask>): (cols: seq<Column>)
    ensures |cols| == |slots|
  {
    if slots == [] then []
    else
      var last := slots[|slots| - 1];
      SlotColumns(ctx, slots[..|slots| - 1], locale, tasks) + [TabColumn(last.tab, locale, Bucket(ctx, tasks, InTab(last.tab.tab.id)))]
  }

  /** A client's column for a group: white and empty (lines 199-205). */
  function GroupColumn(g: GroupView, locale: string): Column
  {
    Column(g.group.id, ResolveName(g.translations, locale, "Unnamed Group"), "#ffffff", [], false)
  }

  function GroupColumns(groups: seq<GroupView>, locale: string): seq<Column>
  {
    seq(|groups|, i requires 0 <= i < |groups| => GroupColumn(groups[i], locale))
  }

  /** The first column: the personal tab's, or the Inbox (lines 115-133). */
  function PersonalColumn(personalTab: Option<TabView>, locale: string, tasks: seq<BoardTask>): Column
  {
    if personalTab.Some? then
      Column(personalTab.value.tab.id, ResolveName(personalTab.value.translations, locale, "My Tasks"),
             personalTab.value.tab.color, tasks, true)
    else Column(0, "Inbox", "#000000", tasks, true)
  }

  /** The column list: the personal column, then the tab columns (admin) or the group columns (client). */
  function BoardColumns(ctx: Context, personalTab: Option<TabView>, tasks: seq<BoardTask>,
                        groups: seq<GroupView>, locale: string): seq<Column>
  {
    [PersonalColumn(personalTab, locale, Bucket(ctx, tasks, Personal))]
    + (if ctx.viewer.role == Admin then SlotColumns(ctx, Slots(ctx, groups), locale, tasks) else GroupColumns(groups, locale))
  }

  /** What the board reads, once the database reads are inputs. */
  function BoardContext(viewer: Viewer, tabs: seq<TabView>, prefs: seq<UserTabPreference>): Context
  {
    Context(viewer, PersonalTabId(FindPersonalTab(tabs, viewer.id)), HiddenTabIds(viewer.id, prefs))
  }

  /** getProjectBoardData as a function of the table contents. */
  function BoardData(viewer: Viewer, locale: string, tabs: seq<TabView>, prefs: seq<UserTabPreference>,
                     users: seq<User>, rows: seq<Task>, groups: seq<GroupView>): Board
  {
    var ctx := BoardContext(viewer, tabs, prefs);
    Board(BoardColumns(ctx, FindPersonalTab(tabs, viewer.id), FetchTasks(viewer, users, rows), groups, locale), viewer)
  }

  /** The k-th tab column is the column of the k-th slot, with the tasks placed in its tab. */
  lemma {:induction false} SlotColumnAt(ctx: Context, slots: seq<Slot>, locale: string, tasks: seq<BoardTask>, k: int)
    requires 0 <= k < |slots|
    ensures SlotColumns(ctx, slots, locale, tasks)[k] == TabColumn(slots[k].tab, locale, Bucket(ctx, tasks, InTab(slots[k].tab.tab.id)))
  {
    if k < |slots| - 1 {
      var front := slots[..|slots| - 1];
      SlotColumnAt(ctx, front, locale, tasks, k);
      assert front[k] == slots[k];
    }
  }

  lemma SlotColumnsSnoc(ctx: Context, a: seq<Slot>, sl: Slot, locale: string, tasks: seq<BoardTask>)
    ensures SlotColumns(ctx, a + [sl], locale, tasks)
         == SlotColumns(ctx, a, locale, tasks) + [TabColumn(sl.tab, locale, Bucket(ctx, tasks, InTab(sl.tab.tab.id)))]
  {
    assert (a + [sl])[..|a|] == a;
  }

  lemma GroupSlotsStep(ctx: Context, gi: nat, g: TabGroup, tabs: seq<TabView>, j: int)
    requires 0 <= j < |tabs|
    ensures GroupSlots(ctx, gi, g, tabs[..j + 1])
         == GroupSlots(ctx, gi, g, tabs[..j]) + (if Emitted(ctx, tabs[j]) then [Slot(gi, j, g, tabs[j])] else [])
  {
    assert tabs[..j + 1][..j] == tabs[..j];
  }

  lemma SlotsStep(ctx: Context, groups: seq<GroupView>, i: int)
    requires 0 <= i < |groups|
    ensures Slots(ctx, groups[..i + 1]) == Slots(ctx, groups[..i]) + GroupSlots(ctx, i, groups[i].group, groups[i].tabs)
  {
    assert groups[..i + 1][..i] == groups[..i];
  }

  /** Tab columns split over concatenated slots. */
  lemma {:induction false} SlotColumnsAppend(ctx: Context, a: seq<Slot>, b: seq<Slot>, locale: string, tasks: seq<BoardTask>)
    ensures SlotColumns(ctx, a + b, locale, tasks) == SlotColumns(ctx, a, locale, tasks) + SlotColumns(ctx, b, locale, tasks)
  {
    if b == [] {
      assert a + b == a;
    } else {
      var front := b[..|b| - 1];
      assert (a + b)[..|a + b| - 1] == a + front;
      assert (a + b)[|a + b| - 1] == b[|b| - 1];
      SlotColumnsAppend(ctx, a, front, locale, tasks);
    }
  }

  /** One step of the inner admin loop: the next tab adds its column, with its tasks from the map, when it is emitted. */
  lemma EmitTabStep(ctx: Context, gi: nat, group: GroupView, locale: string, tasks: seq<BoardTask>,
                    tasksMap: map<int, seq<BoardTask>>, j: int)
    requires MapsBuckets(ctx, tasks, tasksMap)
    requires 0 <= j < |group.tabs|
    ensures var tv := group.tabs[j];
            SlotColumns(ctx, GroupSlots(ctx, gi, group.group, group.tabs[..j + 1]), locale, tasks)
            == SlotColumns(ctx, GroupSlots(ctx, gi, group.group, group.tabs[..j]), locale, tasks)
               + (if Emitted(ctx, tv)
                  then [Column(tv.tab.id, ResolveName(tv.translations, locale, "Unnamed Tab"), tv.tab.color,
                               if tv.tab.id in tasksMap then tasksMap[tv.tab.id] else [], false)]
                  else [])
  {
    var tv := group.tabs[j];
    var done := GroupSlots(ctx, gi, group.group, group.tabs[..j]);
    GroupSlotsStep(ctx, gi, group.group, group.tabs, j);
    if Emitted(ctx, tv) {
      assert (if tv.tab.id in tasksMap then tasksMap[tv.tab.id] else []) == Bucket(ctx, tasks, InTab(tv.tab.id));
      SlotColumnsSnoc(ctx, done, Slot(gi, j, group.group, tv), locale, tasks);
    } else {
      assert GroupSlots(ctx, gi, group.group, group.tabs[..j + 1]) == done;
    }
  }

  /** The inner admin loop (lines 183-194): the columns of one group's emitted tabs, their tasks from the map. */
  method EmitGroupTabColumns(ctx: Context, gi: nat, group: GroupView, locale: string, ghost tasks: seq<BoardTask>,
                             tasksMap: map<int, seq<BoardTask>>) returns (columns: seq<Column>)
    requires MapsBuckets(ctx, tasks, tasksMap)
    ensures columns == SlotColumns(ctx, GroupSlots(ctx, gi, group.group, group.tabs), locale, tasks)
  {
    columns := [];
    var j := 0;
    assert group.tabs[..0] == [];
    while j < |group.tabs|
      invariant 0 <= j <= |group.tabs|
      invariant columns == SlotColumns(ctx, GroupSlots(ctx, gi, group.group, group.tabs[..j]), locale, tasks)
    {
      var tv := group.tabs[j];
      EmitTabStep(ctx, gi, group, locale, tasks, tasksMap, j);
      if tv.tab.id !in ctx.hidden && Some(tv.tab.id) != ctx.personalTabId {
        var name := ResolveName(tv.translations, locale, "Unnamed Tab");
        var columnTasks := if tv.tab.id in tasksMap then tasksMap[tv.tab.id] else [];
        columns := columns + [Column(tv.tab.id, name, tv.tab.color, columnTasks, false)];
      }
      j := j + 1;
    }
    assert group.tabs[..j] == group.tabs;
  }

  /** The admin emission loops (lines 182-195): one column per emitted tab, group by group. */
  method EmitTabColumns(ctx: Context, groups: seq<GroupView>, locale: string, ghost tasks: seq<BoardTask>,
                        tasksMap: map<int, seq<BoardTask>>) returns (columns: seq<Column>)
    requires MapsBuckets(ctx, tasks, tasksMap)
    ensures columns == SlotColumns(ctx, Slots(ctx, groups), locale, tasks)
  {
    columns := [];
    var i := 0;
    assert groups[..0] == [];
    while i < |groups|
      invariant 0 <= i <= |groups|
      invariant columns == SlotColumns(ctx, Slots(ctx, groups[..i]), locale, tasks)
    {
      var groupColumns := EmitGroupTabColumns(ctx, i, groups[i], locale, tasks, tasksMap);
      SlotsStep(ctx, groups, i);
      SlotColumnsAppend(ctx, Slots(ctx, groups[..i]), GroupSlots(ctx, i, groups[i].group, groups[i].tabs), locale, tasks);
      columns := columns + groupColumns;
      i := i + 1;
    }
    assert groups[..i] == groups;
  }

  /** The client emission loop (lines 198-206): one empty column per group. */
  method EmitGroupColumns(groups: seq<GroupView>, locale: string) returns (columns: seq<Column>)
    ensures columns == GroupColumns(groups, locale)
  {
    columns := [];
    var i := 0;
    while i < |groups|
      invariant 0 <= i <= |groups|
      invariant columns == GroupColumns(groups[..i], locale)
    {
      var group := groups[i];
      var name := ResolveName(group.translations, locale, "Unnamed Group");
      columns := columns + [Column(group.group.id, name, "#ffffff", [], false)];
      i := i + 1;
    }
    assert groups[..i] == groups;
  }

  /**
   * getProjectBoardData with the database reads as inputs: the tab table,
   * the preference table, the user table, the task table, and the groups
   * with their tabs as the store returns them.
   */
  method GetProjectBoardData(viewer: Viewer, locale: string, tabs: seq<TabView>, prefs: seq<UserTabPreference>,
                             users: seq<User>, rows: seq<Task>, groups: seq<GroupView>) returns (board: Board)
    ensures board == BoardData(viewer, locale, tabs, prefs, users, rows, groups)
  {
    var personalTab := FindPersonalTab(tabs, viewer.id);
    var personalTabId := PersonalTabId(personalTab);
    var hiddenTabIds := HiddenTabIds(viewer.id, prefs);
    var tasks := FetchTasks(viewer, users, rows);
    var ctx := Context(viewer, personalTabId, hiddenTabIds);
    var personalTasks, tasksMap := Distribute(ctx, tasks);
    var personalColumn := PersonalColumn(personalTab, locale, personalTasks);
    var columns := [personalColumn];
    if viewer.role == Admin {
      var tabColumns := EmitTabColumns(ctx, groups, locale, tasks, tasksMap);
      columns := columns + tabColumns;
    } else {
      var groupColumns := EmitGroupColumns(groups, locale);
      columns := columns + groupColumns;
    }
    board := Board(columns, viewer);
  }

  // ---------------------------------------------------------------- slot properties

  /** `sl` names the tab at its positions in `groups`. */
  predicate SlotOf(groups: seq<GroupView>, sl: Slot) {
    sl.groupIndex < |groups| && sl.group == groups[sl.groupIndex].group
    && sl.tabIndex < |groups[sl.groupIndex].tabs| && sl.tab == groups[sl.groupIndex].tabs[sl.tabIndex]
  }

  /** Group by group, then tab by tab. */
  predicate Before(a: Slot, b: Slot) {
    a.groupIndex < b.groupIndex || (a.groupIndex == b.groupIndex && a.tabIndex < b.tabIndex)
  }

  /** A slot is in a group's slots iff it names an emitted tab of that group at its own index. */
  lemma {:induction false} GroupSlotsMember(ctx: Context, gi: nat, g: TabGroup, tabs: seq<TabView>, sl: Slot)
    ensures sl in GroupSlots(ctx, gi, g, tabs) <==>
            sl.groupIndex == gi && sl.group == g && sl.tabIndex < |tabs| && sl.tab == tabs[sl.tabIndex] && Emitted(ctx, sl.tab)
  {
    if tabs != [] {
      var front := tabs[..|tabs| - 1];
      GroupSlotsMember(ctx, gi, g, front, sl);
      if sl.tabIndex < |front| {
        assert front[sl.tabIndex] == tabs[sl.tabIndex];
      }
    }
  }

  /** A group's slots follow tab order. */
  lemma {:induction false} GroupSlotsOrdered(ctx: Context, gi: nat, g: TabGroup, tabs: seq<TabView>)
    ensures forall k, l :: 0 <= k < l < |GroupSlots(ctx, gi, g, tabs)| ==>
              GroupSlots(ctx, gi, g, tabs)[k].tabIndex < GroupSlots(ctx, gi, g, tabs)[l].tabIndex
  {
    if tabs != [] {
      var front := tabs[..|tabs| - 1];
      GroupSlotsOrdered(ctx, gi, g, front);
      var fr := GroupSlots(ctx, gi, g, front);
      var r := GroupSlots(ctx, gi, g, tabs);
      var last := tabs[|tabs| - 1];
      assert r == fr + (if Emitted(ctx, last) then [Slot(gi, |tabs| - 1, g, last)] else []);
      forall k, l | 0 <= k < l < |r| ensures r[k].tabIndex < r[l].tabIndex {
        assert r[k] == fr[k];
        if l < |fr| {
          assert r[l] == fr[l];
        } else {
          GroupSlotsMember(ctx, gi, g, front, fr[k]);
        }
      }
    }
  }

  /** A slot is in the admin's slots iff it names a tab of `groups` at its positions that is neither hidden nor the personal tab. */
  lemma {:induction false} SlotsMember(ctx: Context, groups: seq<GroupView>, sl: Slot)
    ensures sl in Slots(ctx, groups) <==> SlotOf(groups, sl) && Emitted(ctx, sl.tab)
  {
    if groups != [] {
      var n := |groups| - 1;
      var front := groups[..n];
      SlotsMember(ctx, front, sl);
      GroupSlotsMember(ctx, n, groups[n].group, groups[n].tabs, sl);
      if sl.groupIndex < n {
        assert front[sl.groupIndex] == groups[sl.groupIndex];
      }
    }
  }

  /** The admin's slots follow group order, then tab order. */
  lemma {:induction false} SlotsOrdered(ctx: Context, groups: seq<GroupView>)
    ensures forall k, l :: 0 <= k < l < |Slots(ctx, groups)| ==> Before(Slots(ctx, groups)[k], Slots(ctx, groups)[l])
  {
    if groups != [] {
      var n := |groups| - 1;
      var front := groups[..n];
      SlotsOrdered(ctx, front);
      GroupSlotsOrdered(ctx, n, groups[n].group, groups[n].tabs);
      var fs := Slots(ctx, front);
      var gs := GroupSlots(ctx, n, groups[n].group, groups[n].tabs);
      var s := Slots(ctx, groups);
      assert s == fs + gs;
      forall k, l | 0 <= k < l < |s| ensures Before(s[k], s[l]) {
        if l < |fs| {
          assert s[k] == fs[k] && s[l] == fs[l];
        } else if k < |fs| {
          assert s[k] == fs[k] && s[l] == gs[l - |fs|];
          SlotsMember(ctx, front, fs[k]);
          GroupSlotsMember(ctx, n, groups[n].group, groups[n].tabs, gs[l - |fs|]);
        } else {
          assert s[k] == gs[k - |fs|] && s[l] == gs[l - |fs|];
          GroupSlotsMember(ctx, n, groups[n].group, groups[n].tabs, gs[k - |fs|]);
          GroupSlotsMember(ctx, n, groups[n].group, groups[n].tabs, gs[l - |fs|]);
        }
      }
    }
  }

  /**
   * The admin's tab columns come from the emitted tabs of the groups:
   * each slot names a tab of `groups` that is neither hidden nor the
   * personal tab, the slots follow group order and then tab order, and
   * every such tab has its slot.
   */
  lemma SlotsShape(ctx: Context, groups: seq<GroupView>)
    ensures forall k :: 0 <= k < |Slots(ctx, groups)| ==>
              SlotOf(groups, Slots(ctx, groups)[k]) && Emitted(ctx, Slots(ctx, groups)[k].tab)
    ensures forall k, l :: 0 <= k < l < |Slots(ctx, groups)| ==> Before(Slots(ctx, groups)[k], Slots(ctx, groups)[l])
    ensures forall gi, ti :: 0 <= gi < |groups| && 0 <= ti < |groups[gi].tabs| && Emitted(ctx, groups[gi].tabs[ti]) ==>
              Slot(gi, ti, groups[gi].group, groups[gi].tabs[ti]) in Slots(ctx, groups)
  {
    var s := Slots(ctx, groups);
    forall k | 0 <= k < |s| ensures SlotOf(groups, s[k]) && Emitted(ctx, s[k].tab) {
      SlotsMember(ctx, groups, s[k]);
    }
    forall gi, ti | 0 <= gi < |groups| && 0 <= ti < |groups[gi].tabs| && Emitted(ctx, groups[gi].tabs[ti])
      ensures Slot(gi, ti, groups[gi].group, groups[gi].tabs[ti]) in s
    {
      SlotsMember(ctx, groups, Slot(gi, ti, groups[gi].group, groups[gi].tabs[ti]));
    }
    SlotsOrdered(ctx, groups);
  }

  /** Groups as the store returns them: by sortOrder (line 106). */
  predicate GroupsSorted(groups: seq<GroupView>) {
    forall i, j :: 0 <= i < j < |groups| ==> groups[i].group.sortOrder <= groups[j].group.sortOrder
  }

  /** A group's tabs as the store returns them: by sortOrder (line 102). */
  predicate TabsSorted(tabs: seq<TabView>) {
    forall i, j :: 0 <= i < j < |tabs| ==> tabs[i].tab.sortOrder <= tabs[j].tab.sortOrder
  }

  /**
   * With groups and tabs fetched in sortOrder, the admin's tab columns
   * follow group sortOrder, and within a group tab sortOrder.
   */
  lemma ColumnsFollowSortOrder(ctx: Context, groups: seq<GroupView>)
    requires GroupsSorted(groups) && forall gi :: 0 <= gi < |groups| ==> TabsSorted(groups[gi].tabs)
    ensures forall k, l :: 0 <= k < l < |Slots(ctx, groups)| ==>
              Slots(ctx, groups)[k].group.sortOrder <= Slots(ctx, groups)[l].group.sortOrder
    ensures forall k, l :: 0 <= k < l < |Slots(ctx, groups)| && Slots(ctx, groups)[k].groupIndex == Slots(ctx, groups)[l].groupIndex ==>
              Slots(ctx, groups)[k].tab.tab.sortOrder <= Slots(ctx, groups)[l].tab.tab.sortOrder
  {
    var s := Slots(ctx, groups);
    SlotsShape(ctx, groups);
    forall k, l | 0 <= k < l < |s|
      ensures s[k].group.sortOrder <= s[l].group.sortOrder
      ensures s[k].groupIndex == s[l].groupIndex ==> s[k].tab.tab.sortOrder <= s[l].tab.tab.sortOrder
    {
      assert SlotOf(groups, s[k]) && SlotOf(groups, s[l]) && Before(s[k], s[l]);
      if s[k].groupIndex == s[l].groupIndex {
        assert TabsSorted(groups[s[k].groupIndex].tabs);
      }
    }
  }

  // ---------------------------------------------------------------- placement by case

  /** A client's every task goes to the personal column (lines 141-146, 169-170). */
  lemma ClientPlacement(ctx: Context, x: BoardTask)
    requires ctx.viewer.role == Client
    ensures Place(ctx, x) == Personal
  {
  }

  /** An admin's intake task (created by a client, unassigned) goes to the personal column, whatever its tab (lines 153-159). */
  lemma IntakePlacement(ctx: Context, x: BoardTask)
    requires ctx.viewer.role == Admin && IsClientCreated(x) && IsUnassigned(x.task)
    ensures Place(ctx, x) == Personal
  {
  }

  /**
   * An admin's other task is dropped when its tab is hidden (lines
   * 160-165); otherwise it goes to the personal column when its tab is the
   * personal tab or 0, and to its tab's entry else (lines 169-174).
   */
  lemma RegularPlacement(ctx: Context, x: BoardTask)
    requires ctx.viewer.role == Admin && !(IsClientCreated(x) && IsUnassigned(x.task))
    ensures x.task.tabId in ctx.hidden ==> Place(ctx, x) == Dropped
    ensures x.task.tabId !in ctx.hidden ==>
            Place(ctx, x) == (if x.task.tabId == 0 || Some(x.task.tabId) == ctx.personalTabId then Personal else InTab(x.task.tabId))
  {
  }

  // ---------------------------------------------------------------- board properties

  /** The tasks of a column: the personal ones in the first, a tab's own in an admin's tab column, none in a client's group column. */
  lemma ColumnTasks(ctx: Context, personalTab: Option<TabView>, tasks: seq<BoardTask>, groups: seq<GroupView>,
                    locale: string, i: int, x: BoardTask)
    requires 0 <= i < |BoardColumns(ctx, personalTab, tasks, groups, locale)|
    ensures i == 0 ==> (x in BoardColumns(ctx, personalTab, tasks, groups, locale)[0].tasks <==> x in tasks && Place(ctx, x) == Personal)
    ensures i > 0 ==> (x in BoardColumns(ctx, personalTab, tasks, groups, locale)[i].tasks <==>
                       ctx.viewer.role == Admin && x in tasks && Place(ctx, x) == InTab(BoardColumns(ctx, personalTab, tasks, groups, locale)[i].id))
  {
    var cols := BoardColumns(ctx, personalTab, tasks, groups, locale);
    if i == 0 {
      BucketIff(ctx, tasks, Personal, x);
    } else if ctx.viewer.role == Admin {
      var sl := Slots(ctx, groups)[i - 1];
      SlotColumnAt(ctx, Slots(ctx, groups), locale, tasks, i - 1);
      assert cols[i] == TabColumn(sl.tab, locale, Bucket(ctx, tasks, InTab(sl.tab.tab.id)));
      BucketIff(ctx, tasks, InTab(sl.tab.tab.id), x);
    } else {
      assert cols[i] == GroupColumn(groups[i - 1], locale);
    }
  }

  /** One slot: a tab of `groups` at the slot's positions, neither hidden nor the personal tab. */
  lemma SlotAt(ctx: Context, groups: seq<GroupView>, k: int)
    requires 0 <= k < |Slots(ctx, groups)|
    ensures SlotOf(groups, Slots(ctx, groups)[k]) && Emitted(ctx, Slots(ctx, groups)[k].tab)
  {
    SlotsMember(ctx, groups, Slots(ctx, groups)[k]);
  }

  /** The slot of an emitted tab. */
  lemma SlotFor(ctx: Context, groups: seq<GroupView>, gi: int, ti: int) returns (l: int)
    requires 0 <= gi < |groups| && 0 <= ti < |groups[gi].tabs| && Emitted(ctx, groups[gi].tabs[ti])
    ensures 0 <= l < |Slots(ctx, groups)| && Slots(ctx, groups)[l] == Slot(gi, ti, groups[gi].group, groups[gi].tabs[ti])
  {
    var s := Slots(ctx, groups);
    SlotsMember(ctx, groups, Slot(gi, ti, groups[gi].group, groups[gi].tabs[ti]));
    l :| 0 <= l < |s| && s[l] == Slot(gi, ti, groups[gi].group, groups[gi].tabs[ti]);
  }

  /** An admin's columns after the first are the tab columns of the slots. */
  lemma AdminColumnAt(ctx: Context, personalTab: Option<TabView>, tasks: seq<BoardTask>, groups: seq<GroupView>,
                      locale: string, i: int)
    requires ctx.viewer.role == Admin && 1 <= i < |BoardColumns(ctx, personalTab, tasks, groups, locale)|
    ensures i - 1 < |Slots(ctx, groups)|
    ensures BoardColumns(ctx, personalTab, tasks, groups, locale)[i].id == Slots(ctx, groups)[i - 1].tab.tab.id
  {
    SlotColumnAt(ctx, Slots(ctx, groups), locale, tasks, i - 1);
  }

  /** No tab appears twice across the groups: the tab table's primary key, each tab in one group. */
  predicate TabIdsUnique(groups: seq<GroupView>) {
    forall gi, ti, gj, tj ::
      (0 <= gi < |groups| && 0 <= ti < |groups[gi].tabs| && 0 <= gj < |groups| && 0 <= tj < |groups[gj].tabs|
       && groups[gi].tabs[ti].tab.id == groups[gj].tabs[tj].tab.id) ==> gi == gj && ti == tj
  }

  /** With unique tab ids, two slots for the same tab are the same slot. */
  lemma SlotIdsUnique(ctx: Context, groups: seq<GroupView>, k: int, l: int)
    requires TabIdsUnique(groups)
    requires 0 <= k < |Slots(ctx, groups)| && 0 <= l < |Slots(ctx, groups)|
    requires Slots(ctx, groups)[k].tab.tab.id == Slots(ctx, groups)[l].tab.tab.id
    ensures k == l
  {
    var s := Slots(ctx, groups);
    SlotsMember(ctx, groups, s[k]);
    SlotsMember(ctx, groups, s[l]);
    assert s[k] == s[l];
    SlotsOrdered(ctx, groups);
  }

  /** What membership of column `i` says about a task's placement. */
  predicate PlacedInColumn(ctx: Context, cols: seq<Column>, i: int, x: BoardTask)
    requires 0 <= i < |cols|
  {
    if i == 0 then Place(ctx, x) == Personal else ctx.viewer.role == Admin && Place(ctx, x) == InTab(cols[i].id)
  }

  /** Each task is in at most one column. */
  lemma AtMostOneColumn(ctx: Context, personalTab: Option<TabView>, tasks: seq<BoardTask>, groups: seq<GroupView>,
                        locale: string, x: BoardTask, i: int, j: int)
    requires TabIdsUnique(groups)
    requires 0 <= i < |BoardColumns(ctx, personalTab, tasks, groups, locale)|
    requires 0 <= j < |BoardColumns(ctx, personalTab, tasks, groups, locale)|
    requires x in BoardColumns(ctx, personalTab, tasks, groups, locale)[i].tasks
    requires x in BoardColumns(ctx, personalTab, tasks, groups, locale)[j].tasks
    ensures i == j
  {
    var cols := BoardColumns(ctx, personalTab, tasks, groups, locale);
    assert PlacedInColumn(ctx, cols, i, x) && PlacedInColumn(ctx, cols, j, x) by {
      ColumnTasks(ctx, personalTab, tasks, groups, locale, i, x);
      ColumnTasks(ctx, personalTab, tasks, groups, locale, j, x);
    }
    if i != 0 && j != 0 {
      var s := Slots(ctx, groups);
      assert i - 1 < |s| && j - 1 < |s| && s[i - 1].tab.tab.id == s[j - 1].tab.tab.id by {
        AdminColumnAt(ctx, personalTab, tasks, groups, locale, i);
        AdminColumnAt(ctx, personalTab, tasks, groups, locale, j);
      }
      SlotIdsUnique(ctx, groups, i - 1, j - 1);
    }
  }

  /** An admin's intake task is in the personal column and in no other. */
  lemma AdminIntake(ctx: Context, personalTab: Option<TabView>, tasks: seq<BoardTask>, groups: seq<GroupView>,
                    locale: string, x: BoardTask)
    requires ctx.viewer.role == Admin && x in tasks && IsClientCreated(x) && IsUnassigned(x.task)
    ensures x in BoardColumns(ctx, personalTab, tasks, groups, locale)[0].tasks
    ensures forall i :: 1 <= i < |BoardColumns(ctx, personalTab, tasks, groups, locale)| ==>
              x !in BoardColumns(ctx, personalTab, tasks, groups, locale)[i].tasks
  {
    var cols := BoardColumns(ctx, personalTab, tasks, groups, locale);
    ColumnTasks(ctx, personalTab, tasks, groups, locale, 0, x);
    forall i | 1 <= i < |cols| ensures x !in cols[i].tasks {
      ColumnTasks(ctx, personalTab, tasks, groups, locale, i, x);
    }
  }

  /** An admin's other task whose tab is hidden is in no column. */
  lemma AdminHidden(ctx: Context, personalTab: Option<TabView>, tasks: seq<BoardTask>, groups: seq<GroupView>,
                    locale: string, x: BoardTask)
    requires ctx.viewer.role == Admin && !(IsClientCreated(x) && IsUnassigned(x.task)) && x.task.tabId in ctx.hidden
    ensures forall i :: 0 <= i < |BoardColumns(ctx, personalTab, tasks, groups, locale)| ==>
              x !in BoardColumns(ctx, personalTab, tasks, groups, locale)[i].tasks
  {
    var cols := BoardColumns(ctx, personalTab, tasks, groups, locale);
    forall i | 0 <= i < |cols| ensures x !in cols[i].tasks {
      ColumnTasks(ctx, personalTab, tasks, groups, locale, i, x);
    }
  }

  /** A task placed in a tab shows only in that tab's column, and only when the tab is one of the groups' tabs. */
  lemma TabTaskColumn(ctx: Context, personalTab: Option<TabView>, tasks: seq<BoardTask>, groups: seq<GroupView>,
                      locale: string, x: BoardTask, k: int, i: int)
    requires Place(ctx, x) == InTab(k)
    requires 0 <= i < |BoardColumns(ctx, personalTab, tasks, groups, locale)|
    requires x in BoardColumns(ctx, personalTab, tasks, groups, locale)[i].tasks
    ensures i >= 1 && BoardColumns(ctx, personalTab, tasks, groups, locale)[i].id == k
    ensures exists gi, ti :: 0 <= gi < |groups| && 0 <= ti < |groups[gi].tabs| && groups[gi].tabs[ti].tab.id == k
  {
    assert i >= 1 && ctx.viewer.role == Admin && BoardColumns(ctx, personalTab, tasks, groups, locale)[i].id == k by {
      ColumnTasks(ctx, personalTab, tasks, groups, locale, i, x);
    }
    AdminColumnAt(ctx, personalTab, tasks, groups, locale, i);
    SlotAt(ctx, groups, i - 1);
    var sl := Slots(ctx, groups)[i - 1];
    assert groups[sl.groupIndex].tabs[sl.tabIndex].tab.id == k;
  }

  /** A fetched task placed in a tab of the groups shows in that tab's column. */
  lemma TabTaskShown(ctx: Context, personalTab: Option<TabView>, tasks: seq<BoardTask>, groups: seq<GroupView>,
                     locale: string, x: BoardTask, gi: int, ti: int) returns (i: int)
    requires 0 <= gi < |groups| && 0 <= ti < |groups[gi].tabs|
    requires x in tasks && Place(ctx, x) == InTab(groups[gi].tabs[ti].tab.id)
    ensures 1 <= i < |BoardColumns(ctx, personalTab, tasks, groups, locale)|
    ensures BoardColumns(ctx, personalTab, tasks, groups, locale)[i].id == groups[gi].tabs[ti].tab.id
    ensures x in BoardColumns(ctx, personalTab, tasks, groups, locale)[i].tasks
  {
    var l := SlotFor(ctx, groups, gi, ti);
    i := l + 1;
    var cols := BoardColumns(ctx, personalTab, tasks, groups, locale);
    assert ctx.viewer.role == Admin && 1 <= i < |cols| by {
      PlaceFacts(ctx, x);
    }
    assert cols[i].id == groups[gi].tabs[ti].tab.id by {
      AdminColumnAt(ctx, personalTab, tasks, groups, locale, i);
    }
    assert x in cols[i].tasks by {
      ColumnTasks(ctx, personalTab, tasks, groups, locale, i, x);
    }
  }

  /** A task placed in a tab outside every fetched group stays in the map and shows in no column. */
  lemma OrphanTask(ctx: Context, personalTab: Option<TabView>, tasks: seq<BoardTask>, groups: seq<GroupView>,
                   locale: string, x: BoardTask, k: int)
    requires Place(ctx, x) == InTab(k)
    requires forall gi, ti :: 0 <= gi < |groups| && 0 <= ti < |groups[gi].tabs| ==> groups[gi].tabs[ti].tab.id != k
    ensures forall i :: 0 <= i < |BoardColumns(ctx, personalTab, tasks, groups, locale)| ==>
              x !in BoardColumns(ctx, personalTab, tasks, groups, locale)[i].tasks
  {
    forall i | 0 <= i < |BoardColumns(ctx, personalTab, tasks, groups, locale)|
      ensures x !in BoardColumns(ctx, personalTab, tasks, groups, locale)[i].tasks
    {
      if x in BoardColumns(ctx, personalTab, tasks, groups, locale)[i].tasks {
        TabTaskColumn(ctx, personalTab, tasks, groups, locale, x, k, i);
      }
    }
  }

  /** The personal column comes first and is the only personal one; without a personal tab it is the Inbox. */
  lemma PersonalColumnFirst(ctx: Context, personalTab: Option<TabView>, tasks: seq<BoardTask>, groups: seq<GroupView>,
                            locale: string)
    ensures BoardColumns(ctx, personalTab, tasks, groups, locale)[0].isPersonal
    ensures forall i :: 1 <= i < |BoardColumns(ctx, personalTab, tasks, groups, locale)| ==>
              !BoardColumns(ctx, personalTab, tasks, groups, locale)[i].isPersonal
    ensures personalTab.None? ==>
              var c := BoardColumns(ctx, personalTab, tasks, groups, locale)[0];
              c.id == 0 && c.name == "Inbox" && c.color == "#000000"
    ensures personalTab.Some? ==>
              var c := BoardColumns(ctx, personalTab, tasks, groups, locale)[0];
              c.id == personalTab.value.tab.id && c.color == personalTab.value.tab.color
              && (personalTab.value.translations == [] ==> c.name == "My Tasks")
  {
    var cols := BoardColumns(ctx, personalTab, tasks, groups, locale);
    forall i | 1 <= i < |cols| ensures !cols[i].isPersonal {
      if ctx.viewer.role == Admin {
        SlotColumnAt(ctx, Slots(ctx, groups), locale, tasks, i - 1);
      }
    }
  }

  /**
   * A client's board: every fetched task in the personal column, then one
   * empty white column per group, in group order.
   */
  lemma ClientBoard(ctx: Context, personalTab: Option<TabView>, tasks: seq<BoardTask>, groups: seq<GroupView>,
                    locale: string)
    requires ctx.viewer.role == Client
    ensures |BoardColumns(ctx, personalTab, tasks, groups, locale)| == 1 + |groups|
    ensures BoardColumns(ctx, personalTab, tasks, groups, locale)[0].tasks == tasks
    ensures forall i :: 0 <= i < |groups| ==>
              var c := BoardColumns(ctx, personalTab, tasks, groups, locale)[i + 1];
              c.id == groups[i].group.id && c.tasks == [] && c.color == "#ffffff"
  {
    forall i | 0 <= i < |tasks| ensures Place(ctx, tasks[i]) == Personal {
      ClientPlacement(ctx, tasks[i]);
    }
    BucketAll(ctx, tasks, Personal);
  }

  /**
   * An admin's columns after the first: one per slot, none for a hidden
   * tab or the personal tab, and one for every other tab of the groups.
   */
  lemma AdminColumns(ctx: Context, personalTab: Option<TabView>, tasks: seq<BoardTask>, groups: seq<GroupView>,
                     locale: string)
    requires ctx.viewer.role == Admin
    ensures |BoardColumns(ctx, personalTab, tasks, groups, locale)| == 1 + |Slots(ctx, groups)|
    ensures forall i :: 1 <= i < |BoardColumns(ctx, personalTab, tasks, groups, locale)| ==>
              var c := BoardColumns(ctx, personalTab, tasks, groups, locale)[i];
              c.id !in ctx.hidden && Some(c.id) != ctx.personalTabId
    ensures forall gi, ti :: 0 <= gi < |groups| && 0 <= ti < |groups[gi].tabs| && Emitted(ctx, groups[gi].tabs[ti]) ==>
              exists i :: 1 <= i < |BoardColumns(ctx, personalTab, tasks, groups, locale)|
                          && BoardColumns(ctx, personalTab, tasks, groups, locale)[i].id == groups[gi].tabs[ti].tab.id
  {
    var cols := BoardColumns(ctx, personalTab, tasks, groups, locale);
    forall i | 1 <= i < |cols| ensures cols[i].id !in ctx.hidden && Some(cols[i].id) != ctx.personalTabId {
      AdminColumnAt(ctx, personalTab, tasks, groups, locale, i);
      SlotAt(ctx, groups, i - 1);
    }
    forall gi, ti | 0 <= gi < |groups| && 0 <= ti < |groups[gi].tabs| && Emitted(ctx, groups[gi].tabs[ti])
      ensures exists i :: 1 <= i < |cols| && cols[i].id == groups[gi].tabs[ti].tab.id
    {
      var l := SlotFor(ctx, groups, gi, ti);
      AdminColumnAt(ctx, personalTab, tasks, groups, locale, l + 1);
    }
  }

  /** Every task on the board is a task row in the viewer's scope, with its creator's role. */
  lemma BoardShowsScopedTasks(viewer: Viewer, locale: string, tabs: seq<TabView>, prefs: seq<UserTabPreference>,
                              users: seq<User>, rows: seq<Task>, groups: seq<GroupView>, i: int, x: BoardTask)
    requires 0 <= i < |BoardData(viewer, locale, tabs, prefs, users, rows, groups).columns|
    requires x in BoardData(viewer, locale, tabs, prefs, users, rows, groups).columns[i].tasks
    ensures x.task in rows && InScope(viewer, ClientUserIds(users), x.task)
    ensures x.creatorType == CreatorType(users, x.task.createdById)
  {
    var ctx := BoardContext(viewer, tabs, prefs);
    var tasks := FetchTasks(viewer, users, rows);
    ColumnTasks(ctx, FindPersonalTab(tabs, viewer.id), tasks, groups, locale, i, x);
    FetchTasksIff(viewer, users, rows, x);
  }
}
