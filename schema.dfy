/**
 * The record shapes of the CRM database (src/lib/server/db/schema.ts) that
 * the project board and the client API work with, the table constraints
 * (CHECK and UNIQUE) as predicates, and inserts that apply each table's
 * column defaults and refuse a row that violates a constraint, as the
 * database does.
 *
 * Timestamps (created_at, updated_at) are not modelled.
 */
module Schema {
  import opened Wrappers

  /** userRoleEnum: 'admin' | 'client'. */
  datatype UserType = Admin | Client

  /** clientTypeEnum: 'BTC' | 'BTB'. */
  datatype ClientType = BTC | BTB

  datatype User = User(id: string, email: string, password: string, name: string, userType: UserType)

  /** A tab group: the top level of the board structure. */
  datatype TabGroup = TabGroup(id: int, sortOrder: int, color: string)

  /**
   * A row of tab_translations or tab_group_translations: `ownerId` is the
   * tabId or the tabGroupId.
   */
  datatype Translation = Translation(id: int, ownerId: int, language: string, name: string)

  /** A tab: shared (in a group) or personal (owned by a user, possibly in no group). */
  datatype Tab = Tab(id: int, groupId: Option<int>, userId: Option<string>, sortOrder: int, color: string)

  datatype UserTabPreference = UserTabPreference(id: int, userId: string, tabId: int, sortOrder: int, isVisible: bool)

  datatype Task = Task(
    id: int, title: string, description: Option<string>, tabId: int, clientId: Option<int>,
    assignedToUserId: Option<string>, createdById: Option<string>, seamstress: Option<string>,
    count: Option<int>, endDate: Option<string>, isDone: bool, isPrinted: Option<bool>,
    price: Option<int>, preview: Option<string>)

  datatype ClientRow = ClientRow(
    id: int, name: string, email: Option<string>, phone: Option<string>,
    description: Option<string>, address: Option<string>, vatNumber: Option<string>,
    registrationNumber: Option<string>, bankName: Option<string>, bankCode: Option<string>,
    bankAccount: Option<string>, sportType: Option<string>, clientType: ClientType,
    vatRate: real, totalOrdered: Option<int>)

  /** The values an INSERT into clients supplies: an absent optional column is None. */
  datatype ClientValues = ClientValues(
    name: string, email: Option<string>, phone: Option<string>,
    description: Option<string>, address: Option<string>, vatNumber: Option<string>,
    registrationNumber: Option<string>, bankName: Option<string>, bankCode: Option<string>,
    bankAccount: Option<string>, sportType: Option<string>, clientType: Option<ClientType>,
    vatRate: Option<real>, totalOrdered: Option<int>)

  // ---------------------------------------------------------------- constraints

  /** CHECK shared_tabs_require_group: a tab has a user or a group. */
  predicate TabOk(t: Tab) {
    t.userId.Some? || t.groupId.Some?
  }

  /** CHECK email_or_phone_required: a client has an email or a phone. */
  predicate ClientRowOk(c: ClientRow) {
    c.email.Some? || c.phone.Some?
  }

  /** The primary key and the UNIQUE email and name of the user table. */
  predicate UsersUnique(users: seq<User>) {
    forall i, j | 0 <= i < j < |users| ::
      users[i].id != users[j].id && users[i].email != users[j].email && users[i].name != users[j].name
  }

  /** UNIQUE (userId, tabId) of user_tab_preferences. */
  predicate PreferencesUnique(prefs: seq<UserTabPreference>) {
    forall i, j | 0 <= i < j < |prefs| ::
      prefs[i].userId != prefs[j].userId || prefs[i].tabId != prefs[j].tabId
  }

  /** UNIQUE (tabId, language) of tab_translations, and (tabGroupId, language) of tab_group_translations. */
  predicate TranslationsUnique(ts: seq<Translation>) {
    forall i, j | 0 <= i < j < |ts| ::
      ts[i].ownerId != ts[j].ownerId || ts[i].language != ts[j].language
  }

  // ---------------------------------------------------------------- inserts

  /** Whether `u` clashes with an existing user on the id, the email or the name. */
  predicate UserClashes(users: seq<User>, u: User) {
    exists i :: 0 <= i < |users| && (users[i].id == u.id || users[i].email == u.email || users[i].name == u.name)
  }

  /** INSERT INTO user: the type defaults to 'client'; a clash on a unique column is refused. */
  function InsertUser(users: seq<User>, id: string, email: string, password: string, name: string,
                      userType: Option<UserType>): (r: Option<seq<User>>)
    ensures UsersUnique(users) && r.Some? ==> UsersUnique(r.value)
    ensures r.None? <==> UserClashes(users, User(id, email, password, name, Client))
    ensures r.Some? ==> r.value == users + [User(id, email, password, name, if userType.Some? then userType.value else Client)]
    ensures r.Some? ==> r.value[|users|].userType == (if userType.Some? then userType.value else Client)
  {
    var u := User(id, email, password, name, if userType.Some? then userType.value else Client);
    if UserClashes(users, u) then None else Some(users + [u])
  }

  /** INSERT INTO tabs: sortOrder defaults to 0 and color to '#FFFFFF'; a tab with neither user nor group is refused. */
  function InsertTab(id: int, groupId: Option<int>, userId: Option<string>,
                     sortOrder: Option<int>, color: Option<string>): (r: Option<Tab>)
    ensures r.Some? <==> userId.Some? || groupId.Some?
    ensures r.Some? ==> TabOk(r.value) && r.value.id == id && r.value.groupId == groupId && r.value.userId == userId
    ensures r.Some? ==> r.value.sortOrder == (if sortOrder.Some? then sortOrder.value else 0)
    ensures r.Some? ==> r.value.color == (if color.Some? then color.value else "#FFFFFF")
  {
    var t := Tab(id, groupId, userId, if sortOrder.Some? then sortOrder.value else 0,
                 if color.Some? then color.value else "#FFFFFF");
    if TabOk(t) then Some(t) else None
  }

  /** Whether the preferences already hold a record for (userId, tabId). */
  predicate HasPreference(prefs: seq<UserTabPreference>, userId: string, tabId: int) {
    exists i :: 0 <= i < |prefs| && prefs[i].userId == userId && prefs[i].tabId == tabId
  }

  /** INSERT INTO user_tab_preferences: isVisible defaults to true; a second record for (userId, tabId) is refused. */
  function InsertPreference(prefs: seq<UserTabPreference>, id: int, userId: string, tabId: int,
                            sortOrder: int, isVisible: Option<bool>): (r: Option<seq<UserTabPreference>>)
    ensures PreferencesUnique(prefs) && r.Some? ==> PreferencesUnique(r.value)
    ensures r.None? <==> HasPreference(prefs, userId, tabId)
    ensures r.Some? ==> r.value == prefs + [UserTabPreference(id, userId, tabId, sortOrder, isVisible != Some(false))]
    ensures r.Some? ==> r.value[|prefs|].isVisible == (isVisible != Some(false))
  {
    if HasPreference(prefs, userId, tabId) then None
    else Some(prefs + [UserTabPreference(id, userId, tabId, sortOrder, if isVisible.Some? then isVisible.value else true)])
  }

  /** Whether the translations already hold one for (ownerId, language). */
  predicate HasTranslation(ts: seq<Translation>, ownerId: int, language: string) {
    exists i :: 0 <= i < |ts| && ts[i].ownerId == ownerId && ts[i].language == language
  }

  /** INSERT INTO tab_translations or tab_group_translations: a second translation for (owner, language) is refused. */
  function InsertTranslation(ts: seq<Translation>, id: int, ownerId: int, language: string, name: string)
    : (r: Option<seq<Translation>>)
    ensures TranslationsUnique(ts) && r.Some? ==> TranslationsUnique(r.value)
    ensures r.None? <==> HasTranslation(ts, ownerId, language)
    ensures r.Some? ==> r.value == ts + [Translation(id, ownerId, language, name)]
  {
    if HasTranslation(ts, ownerId, language) then None
    else Some(ts + [Translation(id, ownerId, language, name)])
  }

  /** INSERT INTO tasks: isDone defaults to false; the other columns are stored as given. */
  function InsertTask(draft: Task, isDone: Option<bool>): (t: Task)
    ensures t.isDone == (isDone == Some(true))
    ensures t.(isDone := draft.isDone) == draft
  {
    draft.(isDone := if isDone.Some? then isDone.value else false)
  }

  /**
   * INSERT INTO clients: the type defaults to 'BTC' and the VAT rate to
   * 21.0; a client with neither email nor phone is refused.
   */
  function InsertClient(id: int, v: ClientValues): (r: Option<ClientRow>)
    ensures r.Some? <==> v.email.Some? || v.phone.Some?
    ensures r.Some? ==> ClientRowOk(r.value)
    ensures r.Some? ==> r.value.id == id && r.value.name == v.name && r.value.email == v.email && r.value.phone == v.phone
    ensures r.Some? ==> r.value.clientType == (if v.clientType.Some? then v.clientType.value else BTC)
    ensures r.Some? ==> r.value.vatRate == (if v.vatRate.Some? then v.vatRate.value else 21.0)
    ensures r.Some? ==> r.value.description == v.description && r.value.address == v.address
                        && r.value.vatNumber == v.vatNumber && r.value.registrationNumber == v.registrationNumber
                        && r.value.bankName == v.bankName && r.value.bankCode == v.bankCode
                        && r.value.bankAccount == v.bankAccount && r.value.sportType == v.sportType
                        && r.value.totalOrdered == v.totalOrdered
  {
    var row := ClientRow(id, v.name, v.email, v.phone, v.description, v.address, v.vatNumber,
                         v.registrationNumber, v.bankName, v.bankCode, v.bankAccount, v.sportType,
                         if v.clientType.Some? then v.clientType.value else BTC,
                         if v.vatRate.Some? then v.vatRate.value else 21.0,
                         v.totalOrdered);
    if ClientRowOk(row) then Some(row) else None
  }

  // ---------------------------------------------------------------- consequences

  /** A tab outside every group is somebody's personal tab. */
  lemma GrouplessTabIsPersonal(t: Tab)
    requires TabOk(t) && t.groupId.None?
    ensures t.userId.Some?
  {
  }

  /** Under the UNIQUE constraint, two preferences for the same user and tab are the same record. */
  lemma PreferenceUnique(prefs: seq<UserTabPreference>, i: int, j: int)
    requires PreferencesUnique(prefs)
    requires 0 <= i < |prefs| && 0 <= j < |prefs|
    requires prefs[i].userId == prefs[j].userId && prefs[i].tabId == prefs[j].tabId
    ensures i == j
  {
  }

  /** Under the UNIQUE constraint, two translations of one owner in one language are the same record. */
  lemma TranslationUnique(ts: seq<Translation>, i: int, j: int)
    requires TranslationsUnique(ts)
    requires 0 <= i < |ts| && 0 <= j < |ts|
    requires ts[i].ownerId == ts[j].ownerId && ts[i].language == ts[j].language
    ensures i == j
  {
  }
}
