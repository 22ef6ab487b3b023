/** The analysed database as maps, and the contracts of the tools that change it. What belongs to the
    host application (which names it accepts, how it reads a type, where a comment lands) is a record
    of arbitrary functions. */
module Database {
  import opened Wrappers
  import opened Text

  type Address = int

  datatype Field = Field(name: string, ctype: string, size: nat, comment: string)

  /** Struct members by offset. */
  type Layout = map<nat, Field>

  datatype Member = Member(enumName: string, value: int, mask: int)

  const WHOLE := -1

  datatype Db = Db(
    names: map<Address, string>,
    comments: map<(Address, bool), string>,
    functionComments: map<(Address, bool), string>,
    pseudocodeComments: map<(Address, Address), string>,
    locals: map<Address, seq<string>>,
    files: map<string, string>,
    structs: map<string, Layout>,
    enums: set<string>,
    members: map<string, Member>)

  datatype Host = Host(
    functionAt: Address -> Option<Address>,
    storeName: string -> Option<string>,
    commentable: Address -> bool,
    localNameOk: string -> bool,
    commentLine: (Address, Address) -> Option<Address>,
    writablePath: string -> Option<string>,
    resolveType: string -> Option<(string, nat)>,
    fieldNameOk: string -> bool,
    structSize: Layout -> nat,
    padding: (nat, nat) -> Field,
    memberNameOk: string -> bool,
    hasEnumModule: bool,
    // the getters' texts, read back
    jsonLength: string -> nat,
    readHeader: string -> string,
    shownStruct: (string, Layout) -> Option<ShownStruct>,
    shownEnum: (string, map<string, Member>) -> Option<map<string, int>>)

  /** A struct as its description was parsed. */
  datatype ShownStruct = ShownStruct(size: nat, fields: map<string, ShownField>)

  datatype ShownField = ShownField(ctype: string, offset: int, comment: string)

  datatype StructAction =
    | AddField(field: string, ctype: string, offset: int)
    | RemoveField(field: string)
    | RenameField(field: string, newName: string)
    | RetypeField(field: string, ctype: string)
    | SetFieldComment(field: string, comment: string)
    | Resize(newSize: int)

  datatype EnumAction =
    | AddMember(member: string, value: int)
    | RemoveMember(member: string)
    | RenameMember(member: string, newName: string)

  datatype Tool =
    | RenameFunction(address: Address, newName: string)
    | RenameAddress(address: Address, newName: string)
    | RenameVariable(within: Address, oldName: string, newName: string)
    | SetComment(address: Address, text: string, repeatable: bool)
    | SetFunctionComment(address: Address, text: string, repeatable: bool)
    | SetPseudocodeComment(within: Address, target: Address, text: string)
    | WriteFile(path: string, text: string, overwrite: bool)
    | ModifyStruct(name: string, structAction: StructAction)
    | ModifyEnum(name: string, enumAction: EnumAction)

  /** A tool changes the database, answers with a refusal (one the caller's text heuristic notices or
      not), or raises; only `Done` changes anything. */
  datatype Outcome = Done(db: Db) | Refused(noticed: bool) | Raised {
    function After(before: Db): Db {
      if Done? then db else before
    }
  }

  // ---------------------------------------------------------------- comments and names

  /** Absent entries read as the empty text, and storing it removes the entry. */
  function TextAt<K>(m: map<K, string>, k: K): string {
    if k in m then m[k] else ""
  }

  function Put<K>(m: map<K, string>, k: K, text: string): map<K, string> {
    if text == "" then m - {k} else m[k := text]
  }

  predicate Taken(names: map<Address, string>, at: Address, name: string) {
    exists a | a in names :: a != at && names[a] == name
  }

  function SetName(h: Host, db: Db, at: Address, clean: string): Outcome {
    var stored := h.storeName(clean);
    if stored.None? || stored.value == "" || Taken(db.names, at, stored.value) then Refused(true)
    else Done(db.(names := db.names[at := stored.value]))
  }

  function IndexOf(names: seq<string>, name: string): (i: Option<nat>)
    ensures i.None? <==> name !in names
    ensures i.Some? ==> i.value < |names| && names[i.value] == name
  {
    if |names| == 0 then None
    else if names[0] == name then Some(0)
    else
      var rest := IndexOf(names[1..], name);
      if rest.None? then None else Some(rest.value + 1)
  }

  function RenameLocal(h: Host, db: Db, entry: Address, from: string, to: string): Outcome {
    if entry !in db.locals then Refused(true)
    else
      var i := IndexOf(db.locals[entry], from);
      if i.None? || !h.localNameOk(to) || (to != from && to in db.locals[entry]) then Refused(true)
      else Done(db.(locals := db.locals[entry := db.locals[entry][i.value := to]]))
  }

  // ---------------------------------------------------------------- files

  const READ_MAX_CHARS := 4000
  const READ_MAX_BYTES := 0x10_0000
  const WRITE_MAX_BYTES := 0x20_0000

  function Write(h: Host, db: Db, path: string, text: string, overwrite: bool): Outcome {
    var p := h.writablePath(path);
    if p.None? || Utf8Bytes(text) > WRITE_MAX_BYTES || (p.value in db.files && !overwrite) then Refused(true)
    else Done(db.(files := db.files[p.value := text]))
  }

  // ---------------------------------------------------------------- structs

  datatype StructOutcome = Changed(fields: Layout) | Kept(noticed: bool)

  predicate Overlap(o: nat, size: nat, p: nat, other: nat) {
    o == p || (o < p + other && p < o + size)
  }

  predicate Free(fields: Layout, o: nat, size: nat) {
    forall p | p in fields :: !Overlap(o, size, p, fields[p].size)
  }

  predicate FieldExists(fields: Layout, name: string) {
    exists o | o in fields :: fields[o].name == name
  }

  ghost function OffsetOf(fields: Layout, name: string): (o: nat)
    requires FieldExists(fields, name)
    ensures o in fields && fields[o].name == name
  {
    var o :| o in fields && fields[o].name == name; o
  }

  /** Adding may destroy the members it overlaps. */
  function AddAt(fields: Layout, o: nat, f: Field): Layout {
    (map p | p in fields && !Overlap(o, f.size, p, fields[p].size) :: fields[p])[o := f]
  }

  function AppendOffset(h: Host, fields: Layout, offset: int): nat {
    if offset >= 0 then offset else h.structSize(fields)
  }

  ghost function ActOnStruct(h: Host, fields: Layout, a: StructAction): StructOutcome {
    match a
    case AddField(field, ctype, offset) =>
      var t := h.resolveType(ctype);
      if t.None? || FieldExists(fields, field) || !h.fieldNameOk(field) then Kept(true)
      else Changed(AddAt(fields, AppendOffset(h, fields, offset), Field(field, t.value.0, t.value.1, "")))
    case RemoveField(field) =>
      if FieldExists(fields, field) then Changed(fields - {OffsetOf(fields, field)}) else Kept(true)
    case RenameField(field, newName) =>
      if !FieldExists(fields, field) then Kept(true)
      else if !h.fieldNameOk(newName) || (newName != field && FieldExists(fields, newName)) then Kept(false)
      else
        var o := OffsetOf(fields, field);
        Changed(fields[o := fields[o].(name := newName)])
    case RetypeField(field, ctype) =>
      if !FieldExists(fields, field) then Kept(true)
      else
        var o, t := OffsetOf(fields, field), h.resolveType(ctype);
        if t.None? then Kept(true)
        else if !Free(fields - {o}, o, t.value.1) then Kept(false)
        else Changed(fields[o := fields[o].(ctype := t.value.0, size := t.value.1)])
    case SetFieldComment(field, comment) =>
      if !FieldExists(fields, field) then Kept(true)
      else
        var o := OffsetOf(fields, field);
        Changed(fields[o := fields[o].(comment := comment)])
    case Resize(newSize) =>
      var current := h.structSize(fields);
      if newSize <= current then Kept(false)
      else
        var pad := h.padding(current, newSize - current);
        // the answer of the host is not looked at: a refused padding still reads as success
        Changed(if FieldExists(fields, pad.name) || !Free(fields, current, pad.size) then fields
                else fields[current := pad])
  }

  // ---------------------------------------------------------------- enums

  function ActOnEnum(h: Host, db: Db, name: string, a: EnumAction): Outcome {
    match a
    case AddMember(member, value) =>
      if member in db.members || !h.memberNameOk(member) then Refused(true)
      else Done(db.(members := db.members[member := Member(name, value, WHOLE)]))
    case RemoveMember(member) =>
      if !h.hasEnumModule then Refused(false)
      else if member !in db.members then Refused(true)
      else if db.members[member].enumName != name then Refused(false)
      else Done(db.(members := db.members - {member}))
    case RenameMember(member, newName) =>
      if !h.hasEnumModule then Refused(false)
      else if member !in db.members then Refused(true)
      else if !h.memberNameOk(newName) || (newName != member && newName in db.members) then Refused(false)
      else Done(db.(members := (db.members - {member})[newName := db.members[member]]))
  }

  // ---------------------------------------------------------------- every tool

  ghost function Exec(h: Host, db: Db, tool: Tool): Outcome {
    match tool
    case RenameFunction(address, newName) =>
      if Strip(newName) == "" then Raised
      else
        var f := h.functionAt(address);
        if f.None? then Refused(true) else SetName(h, db, f.value, Strip(newName))
    case RenameAddress(address, newName) =>
      if Strip(newName) == "" then Raised else SetName(h, db, address, Strip(newName))
    case RenameVariable(within, oldName, newName) =>
      if Strip(oldName) == "" || Strip(newName) == "" then Raised
      else RenameLocal(h, db, within, Strip(oldName), Strip(newName))
    case SetComment(address, text, repeatable) =>
      if Strip(text) == "" then Raised
      else if !h.commentable(address) then Refused(true)
      else Done(db.(comments := Put(db.comments, (address, repeatable), Strip(text))))
    case SetFunctionComment(address, text, repeatable) =>
      if Strip(text) == "" then Raised
      else
        var f := h.functionAt(address);
        if f.None? then Refused(true)
        else Done(db.(functionComments := Put(db.functionComments, (f.value, repeatable), Strip(text))))
    case SetPseudocodeComment(within, target, text) =>
      var line := h.commentLine(within, target);
      if line.None? then Refused(true)
      else Done(db.(pseudocodeComments := Put(db.pseudocodeComments, (within, line.value), text)))
    case WriteFile(path, text, overwrite) => Write(h, db, path, text, overwrite)
    case ModifyStruct(name, action) =>
      if Strip(name) == "" then Raised
      else if Strip(name) !in db.structs then Refused(true)
      else
        var o := ActOnStruct(h, db.structs[Strip(name)], action);
        if o.Kept? then Refused(o.noticed) else Done(db.(structs := db.structs[Strip(name) := o.fields]))
    case ModifyEnum(name, action) =>
      if Strip(name) == "" then Raised
      else if Strip(name) !in db.enums then Refused(true)
      else ActOnEnum(h, db, Strip(name), action)
  }

  // ---------------------------------------------------------------- what the host keeps

  ghost predicate NamesUnique(names: map<Address, string>) {
    && (forall a | a in names :: names[a] != "")
    && (forall a, b | a in names && b in names && names[a] == names[b] :: a == b)
  }

  ghost predicate TextsHeld<K>(m: map<K, string>) {
    forall k | k in m :: m[k] != ""
  }

  ghost predicate Distinct(names: seq<string>) {
    forall i, j | 0 <= i < j < |names| :: names[i] != names[j]
  }

  ghost predicate SoundLayout(fields: Layout) {
    && (forall o, p | o in fields && p in fields && fields[o].name == fields[p].name :: o == p)
    && (forall o, p | o in fields && p in fields && o != p :: !Overlap(o, fields[o].size, p, fields[p].size))
  }

  ghost predicate Valid(db: Db) {
    && NamesUnique(db.names)
    && TextsHeld(db.comments) && TextsHeld(db.functionComments) && TextsHeld(db.pseudocodeComments)
    && (forall f | f in db.locals :: Distinct(db.locals[f]))
    && (forall s | s in db.structs :: SoundLayout(db.structs[s]))
    && MembersBelong(db.members, db.enums)
  }

  ghost predicate MembersBelong(members: map<string, Member>, enums: set<string>) {
    forall m | m in members :: members[m].enumName in enums
  }

  lemma OffsetOfIs(fields: Layout, name: string, o: nat)
    requires SoundLayout(fields) && o in fields && fields[o].name == name
    ensures FieldExists(fields, name) && OffsetOf(fields, name) == o
  {
  }

  lemma PlacedKeepsSound(fields: Layout, o: nat, f: Field)
    requires SoundLayout(fields)
    requires Free(fields - {o}, o, f.size) && !FieldExists(fields - {o}, f.name)
    ensures SoundLayout(fields[o := f])
  {
    forall p | p in fields && p != o
      ensures !Overlap(o, f.size, p, fields[p].size) && !Overlap(p, fields[p].size, o, f.size)
              && fields[p].name != f.name
    {
      assert p in fields - {o};
    }
  }

  lemma LessIsSound(fields: Layout, fewer: Layout)
    requires SoundLayout(fields) && forall p | p in fewer :: p in fields && fewer[p] == fields[p]
    ensures SoundLayout(fewer)
  {
  }

  lemma AddAtKeepsSound(fields: Layout, o: nat, f: Field)
    requires SoundLayout(fields) && !FieldExists(fields, f.name)
    ensures SoundLayout(AddAt(fields, o, f))
  {
    var kept := map p | p in fields && !Overlap(o, f.size, p, fields[p].size) :: fields[p];
    LessIsSound(fields, kept);
    PlacedKeepsSound(kept, o, f);
  }

  lemma ReplacedKeepsSound(fields: Layout, o: nat, f: Field)
    requires SoundLayout(fields) && o in fields
    requires f.size == fields[o].size || Free(fields - {o}, o, f.size)
    requires f.name == fields[o].name || !FieldExists(fields, f.name)
    ensures SoundLayout(fields[o := f])
  {
    PlacedKeepsSound(fields, o, f);
  }

  lemma StructActKeepsSound(h: Host, fields: Layout, a: StructAction)
    requires SoundLayout(fields)
    ensures var o := ActOnStruct(h, fields, a); o.Changed? ==> SoundLayout(o.fields)
  {
    hide SoundLayout, Free, AddAt;
    var out := ActOnStruct(h, fields, a);
    if out.Changed? {
      match a
      case AddField(field, ctype, offset) =>
        var t := h.resolveType(ctype).value;
        AddAtKeepsSound(fields, AppendOffset(h, fields, offset), Field(field, t.0, t.1, ""));
      case RemoveField(field) => LessIsSound(fields, out.fields);
      case Resize(newSize) =>
        var current := h.structSize(fields);
        var pad := h.padding(current, newSize - current);
        if out.fields != fields {
          AppendedKeepsSound(fields, current, pad);
        }
      case _ =>
        var o := OffsetOf(fields, a.field);
        ReplacedKeepsSound(fields, o, out.fields[o]);
    }
  }

  lemma AppendedKeepsSound(fields: Layout, o: nat, f: Field)
    requires SoundLayout(fields) && Free(fields, o, f.size) && !FieldExists(fields, f.name)
    ensures SoundLayout(fields[o := f])
  {
    PlacedKeepsSound(fields, o, f);
  }

  lemma RenameLocalKeepsDistinct(names: seq<string>, i: nat, to: string)
    requires Distinct(names) && i < |names| && (to == names[i] || to !in names)
    ensures Distinct(names[i := to])
  {
  }

  lemma NamedKeepsUnique(names: map<Address, string>, at: Address, name: string)
    requires NamesUnique(names) && name != "" && !Taken(names, at, name)
    ensures NamesUnique(names[at := name])
  {
  }

  lemma SetNameKeepsValid(h: Host, db: Db, at: Address, clean: string)
    requires Valid(db)
    ensures Valid(SetName(h, db, at, clean).After(db))
  {
    hide NamesUnique, TextsHeld, Distinct, SoundLayout, Taken;
    if SetName(h, db, at, clean).Done? {
      NamedKeepsUnique(db.names, at, h.storeName(clean).value);
    }
  }

  lemma RenamesKeepValid(h: Host, db: Db, tool: Tool)
    requires Valid(db) && (tool.RenameFunction? || tool.RenameAddress?)
    ensures Valid(Exec(h, db, tool).After(db))
  {
    hide Valid, SetName, Strip;
    var clean := Strip(tool.newName);
    SetNameKeepsValid(h, db, tool.address, clean);
    if h.functionAt(tool.address).Some? { SetNameKeepsValid(h, db, h.functionAt(tool.address).value, clean); }
  }

  lemma LocalsKeepValid(h: Host, db: Db, tool: Tool)
    requires Valid(db) && tool.RenameVariable?
    ensures Valid(Exec(h, db, tool).After(db))
  {
    hide Distinct, SoundLayout, NamesUnique, TextsHeld, Strip;
    if Exec(h, db, tool).Done? {
      var names := db.locals[tool.within];
      RenameLocalKeepsDistinct(names, IndexOf(names, Strip(tool.oldName)).value, Strip(tool.newName));
    }
  }

  lemma CommentsKeepValid(h: Host, db: Db, tool: Tool)
    requires Valid(db) && (tool.SetComment? || tool.SetFunctionComment? || tool.SetPseudocodeComment?)
    ensures Valid(Exec(h, db, tool).After(db))
  {
    hide Distinct, SoundLayout, NamesUnique, Strip;
  }

  lemma FilesKeepValid(h: Host, db: Db, tool: Tool)
    requires Valid(db) && tool.WriteFile?
    ensures Valid(Exec(h, db, tool).After(db))
  {
    hide Distinct, SoundLayout, NamesUnique, TextsHeld, Utf8Bytes;
  }

  lemma StructsKeepValid(h: Host, db: Db, tool: Tool)
    requires Valid(db) && tool.ModifyStruct?
    ensures Valid(Exec(h, db, tool).After(db))
  {
    hide Distinct, SoundLayout, NamesUnique, TextsHeld, ActOnStruct, Strip;
    if Exec(h, db, tool).Done? {
      StructActKeepsSound(h, db.structs[Strip(tool.name)], tool.structAction);
    }
  }

  lemma EnumActKeepsMembers(h: Host, db: Db, name: string, a: EnumAction)
    requires MembersBelong(db.members, db.enums) && name in db.enums
    ensures var after := ActOnEnum(h, db, name, a).After(db);
            MembersBelong(after.members, db.enums) && after.(members := db.members) == db
  {
  }

  lemma EnumsKeepValid(h: Host, db: Db, tool: Tool)
    requires Valid(db) && tool.ModifyEnum?
    ensures Valid(Exec(h, db, tool).After(db))
  {
    hide Distinct, SoundLayout, NamesUnique, TextsHeld, Strip, ActOnEnum, MembersBelong;
    if Strip(tool.name) in db.enums {
      EnumActKeepsMembers(h, db, Strip(tool.name), tool.enumAction);
    }
  }

  /** The tools keep the database sound: names unique, no overlapping members, no dangling enum members. */
  lemma ExecKeepsValid(h: Host, db: Db, tool: Tool)
    requires Valid(db)
    ensures Valid(Exec(h, db, tool).After(db))
  {
    hide Exec, Valid;
    match tool
    case RenameFunction(_, _) => RenamesKeepValid(h, db, tool);
    case RenameAddress(_, _) => RenamesKeepValid(h, db, tool);
    case RenameVariable(_, _, _) => LocalsKeepValid(h, db, tool);
    case WriteFile(_, _, _) => FilesKeepValid(h, db, tool);
    case ModifyStruct(_, _) => StructsKeepValid(h, db, tool);
    case ModifyEnum(_, _) => EnumsKeepValid(h, db, tool);
    case _ => CommentsKeepValid(h, db, tool);
  }
}
