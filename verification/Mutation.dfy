/** Pre-state capture and reverse records for the mutating tools, and exactly when a record undoes
    what its tool did. */
module Mutation {
  import opened Wrappers
  import opened Text
  import opened Database

  const RESULT_MAX_CHARS := 8000
  const RESULT_CUT := "\n... (truncated)"
  const FILE_CUT := "\n\U{2026}(truncated)\U{2026}"

  /** Every tool result is cut to the registry's limit, getters' results too. */
  function Shown(s: string): string {
    if |s| > RESULT_MAX_CHARS then s[..RESULT_MAX_CHARS] + RESULT_CUT else s
  }

  function Excerpt(text: string): string {
    if |text| > READ_MAX_CHARS then RStrip(text[..READ_MAX_CHARS]) + FILE_CUT else text
  }

  predicate HasValue(s: string) {
    Strip(s) != ""
  }

  // ---------------------------------------------------------------- capture

  datatype PreState =
    | Nothing
    | OldName(name: string)
    | OldComment(comment: Option<string>)
    | OldFile(existed: bool, content: string)
    | OldStruct(info: ShownStruct)
    | OldEnum(values: map<string, int>)

  /** Position of the first ":\n", or |s|. */
  function MarkerAt(s: string): (i: nat)
    ensures i <= |s|
    ensures i < |s| ==> i + 2 <= |s| && s[i] == ':' && s[i + 1] == '\n'
  {
    if |s| < 2 then |s|
    else if s[0] == ':' && s[1] == '\n' then 0
    else 1 + MarkerAt(s[1..])
  }

  function ParseReadFile(raw: string): string {
    var i := MarkerAt(raw);
    if i == |raw| then "" else raw[i + 2..]
  }

  /** What the file getter tells of an existing file's text. */
  function ReadBack(h: Host, path: string, text: string): string {
    ParseReadFile(Shown(h.readHeader(path) + ":\n" + Excerpt(text)))
  }

  function NameAt(db: Db, at: Address): string {
    TextAt(db.names, at)
  }

  function Capture(h: Host, db: Db, tool: Tool): PreState {
    match tool
    case RenameFunction(address, _) =>
      var f := h.functionAt(address);
      OldName(if f.None? then "" else Shown(NameAt(db, f.value)))
    case RenameAddress(address, _) => OldName(Shown(NameAt(db, address)))
    case RenameVariable(_, _, _) => Nothing
    case SetComment(address, _, repeatable) => OldComment(Some(Shown(TextAt(db.comments, (address, repeatable)))))
    case SetFunctionComment(address, _, repeatable) =>
      var f := h.functionAt(address);
      OldComment(Some(if f.None? then "" else Shown(TextAt(db.functionComments, (f.value, repeatable)))))
    case SetPseudocodeComment(within, target, _) =>
      var line := h.commentLine(within, target);
      if line.None? then OldComment(None)
      else
        var prior := TextAt(db.pseudocodeComments, (within, line.value));
        // a state too long for a tool result arrives as malformed JSON
        OldComment(if h.jsonLength(prior) > RESULT_MAX_CHARS then None else Some(prior))
    case WriteFile(path, _, _) =>
      var p := h.writablePath(path);
      if p.None? || p.value !in db.files || Utf8Bytes(db.files[p.value]) > READ_MAX_BYTES then OldFile(false, "")
      else OldFile(true, ReadBack(h, p.value, db.files[p.value]))
    case ModifyStruct(name, _) =>
      // the getter is given the name as written, without trimming it
      var shown := if HasValue(name) && name in db.structs then h.shownStruct(name, db.structs[name]) else None;
      if shown.None? then Nothing else OldStruct(shown.value)
    case ModifyEnum(name, _) =>
      var shown := if HasValue(name) && name in db.enums then h.shownEnum(name, db.members) else None;
      if shown.None? then Nothing else OldEnum(shown.value)
  }

  // ---------------------------------------------------------------- reverse records

  function ShownFieldOf(pre: PreState, field: string): Option<ShownField> {
    if pre.OldStruct? && field in pre.info.fields then Some(pre.info.fields[field]) else None
  }

  function CapturedComment(pre: PreState, field: string): string {
    var prior := ShownFieldOf(pre, field);
    if prior.Some? then prior.value.comment else ""
  }

  function ReverseStruct(a: StructAction, pre: PreState): Option<StructAction> {
    match a
    case RenameField(field, newName) =>
      if HasValue(field) && HasValue(newName) then Some(RenameField(newName, field)) else None
    case AddField(field, _, _) => if HasValue(field) then Some(RemoveField(field)) else None
    case RemoveField(field) =>
      var prior := ShownFieldOf(pre, field);
      if HasValue(field) && prior.Some? then Some(AddField(field, prior.value.ctype, prior.value.offset)) else None
    case RetypeField(field, _) =>
      var prior := ShownFieldOf(pre, field);
      if HasValue(field) && prior.Some? && prior.value.ctype != "" then Some(RetypeField(field, prior.value.ctype))
      else None
    case SetFieldComment(field, _) =>
      if HasValue(field) then Some(SetFieldComment(field, CapturedComment(pre, field))) else None
    case Resize(newSize) =>
      if pre.OldStruct? && pre.info.size != 0 && pre.info.size != newSize then Some(Resize(pre.info.size)) else None
  }

  function ReverseEnum(a: EnumAction, pre: PreState): Option<EnumAction> {
    match a
    case RenameMember(member, newName) =>
      if HasValue(member) && HasValue(newName) then Some(RenameMember(newName, member)) else None
    case AddMember(member, _) => if HasValue(member) then Some(RemoveMember(member)) else None
    case RemoveMember(member) =>
      if HasValue(member) && pre.OldEnum? && member in pre.values then Some(AddMember(member, pre.values[member]))
      else None
  }

  /** The reverse call of a mutation, or None when the mutation is not reversible. */
  function Reverse(tool: Tool, pre: PreState): Option<Tool> {
    match tool
    case RenameFunction(address, newName) =>
      if pre.OldName? && HasValue(pre.name) && HasValue(newName) then Some(RenameFunction(address, pre.name)) else None
    case RenameAddress(address, newName) =>
      if pre.OldName? && HasValue(pre.name) && HasValue(newName) then Some(RenameAddress(address, pre.name)) else None
    case RenameVariable(within, oldName, newName) =>
      if HasValue(oldName) && HasValue(newName) then Some(RenameVariable(within, newName, oldName)) else None
    case SetComment(address, _, repeatable) =>
      if pre.OldComment? && pre.comment.Some? then Some(SetComment(address, pre.comment.value, repeatable)) else None
    case SetFunctionComment(address, _, repeatable) =>
      if pre.OldComment? && pre.comment.Some? then Some(SetFunctionComment(address, pre.comment.value, repeatable))
      else None
    case SetPseudocodeComment(within, target, _) =>
      if pre.OldComment? && pre.comment.Some? then Some(SetPseudocodeComment(within, target, pre.comment.value))
      else None
    case WriteFile(path, _, _) =>
      if pre.OldFile? && pre.existed then Some(WriteFile(path, pre.content, true)) else None
    case ModifyStruct(name, action) =>
      var r := ReverseStruct(action, pre);
      if HasValue(name) && r.Some? then Some(ModifyStruct(name, r.value)) else None
    case ModifyEnum(name, action) =>
      var r := ReverseEnum(action, pre);
      if HasValue(name) && r.Some? then Some(ModifyEnum(name, r.value)) else None
  }

  // ---------------------------------------------------------------- when undo is faithful

  /** A text survives the getter's cut, the tool's trimming and its refusal of blank text. */
  predicate Resettable(prior: string) {
    prior != "" && Strip(Shown(prior)) == prior
  }

  predicate RenameFaithful(h: Host, db: Db, at: Address) {
    at in db.names && h.storeName(Strip(Shown(db.names[at]))) == Some(db.names[at])
  }

  ghost predicate StructFaithful(h: Host, fields: Layout, a: StructAction, pre: PreState) {
    match a
    case RenameField(field, _) => h.fieldNameOk(field)
    case AddField(_, ctype, offset) =>
      var t := h.resolveType(ctype);
      t.Some? && Free(fields, AppendOffset(h, fields, offset), t.value.1)
    case RemoveField(field) =>
      && FieldExists(fields, field) && ShownFieldOf(pre, field).Some?
      && var o, prior := OffsetOf(fields, field), ShownFieldOf(pre, field).value;
         && AppendOffset(h, fields - {o}, prior.offset) == o
         && h.resolveType(prior.ctype) == Some((fields[o].ctype, fields[o].size))
         && fields[o].comment == "" && h.fieldNameOk(field)
    case RetypeField(field, _) =>
      && FieldExists(fields, field) && ShownFieldOf(pre, field).Some?
      && var o := OffsetOf(fields, field);
         h.resolveType(ShownFieldOf(pre, field).value.ctype) == Some((fields[o].ctype, fields[o].size))
    case SetFieldComment(field, _) =>
      FieldExists(fields, field) && CapturedComment(pre, field) == fields[OffsetOf(fields, field)].comment
    case Resize(_) => false
  }

  predicate EnumFaithful(h: Host, members: map<string, Member>, a: EnumAction, pre: PreState) {
    match a
    case RenameMember(member, _) => h.memberNameOk(member)
    case AddMember(_, _) => h.hasEnumModule
    case RemoveMember(member) =>
      && member in members && pre.OldEnum? && member in pre.values
      && pre.values[member] == members[member].value && members[member].mask == WHOLE && h.memberNameOk(member)
  }

  /** The guard, checkable before the call, under which its reverse record really is an inverse. */
  ghost predicate Faithful(h: Host, db: Db, tool: Tool) {
    match tool
    case RenameFunction(address, _) => h.functionAt(address).Some? && RenameFaithful(h, db, h.functionAt(address).value)
    case RenameAddress(address, _) => RenameFaithful(h, db, address)
    case RenameVariable(_, oldName, _) => h.localNameOk(Strip(oldName))
    case SetComment(address, _, repeatable) => Resettable(TextAt(db.comments, (address, repeatable)))
    case SetFunctionComment(address, _, repeatable) =>
      h.functionAt(address).Some? && Resettable(TextAt(db.functionComments, (h.functionAt(address).value, repeatable)))
    case SetPseudocodeComment(_, _, _) => true
    case WriteFile(path, _, _) =>
      var p := h.writablePath(path);
      p.Some? && p.value in db.files && ReadBack(h, p.value, db.files[p.value]) == db.files[p.value]
    case ModifyStruct(name, action) =>
      Strip(name) in db.structs && StructFaithful(h, db.structs[Strip(name)], action, Capture(h, db, tool))
    case ModifyEnum(name, action) => EnumFaithful(h, db.members, action, Capture(h, db, tool))
  }

  ghost predicate Undoes(h: Host, db: Db, tool: Tool, r: Tool) {
    Exec(h, db, tool).Done? && Exec(h, Exec(h, db, tool).db, r) == Done(db)
  }

  ghost predicate Recordable(h: Host, db: Db, tool: Tool, r: Tool) {
    Valid(db) && Exec(h, db, tool).Done? && Reverse(tool, Capture(h, db, tool)) == Some(r)
  }

  lemma RenameUndo(h: Host, db: Db, at: Address, newName: string, prior: string)
    requires NamesUnique(db.names) && SetName(h, db, at, newName).Done?
    requires prior == Strip(Shown(NameAt(db, at))) && prior != ""
    ensures SetName(h, SetName(h, db, at, newName).db, at, prior) == Done(db) <==> RenameFaithful(h, db, at)
  {
    hide Strip, Shown;
    assert at in db.names by { if at !in db.names { NothingShown(); } }
    var db1 := SetName(h, db, at, newName).db;
    if RenameFaithful(h, db, at) {
      var name := db.names[at];
      assert !Taken(db1.names, at, name);
      assert db1.names[at := name] == db.names;
    }
  }

  lemma NothingShown()
    ensures Strip(Shown("")) == ""
  {
  }

  lemma RenamesUndo(h: Host, db: Db, tool: Tool, r: Tool)
    requires Recordable(h, db, tool, r) && (tool.RenameFunction? || tool.RenameAddress?)
    ensures Undoes(h, db, tool, r) <==> Faithful(h, db, tool)
  {
    hide Strip, Shown, SetName, NamesUnique;
    var at := if tool.RenameAddress? then tool.address else h.functionAt(tool.address).value;
    assert Capture(h, db, tool) == OldName(Shown(NameAt(db, at)));
    assert HasValue(Shown(NameAt(db, at)));
    RenameUndo(h, db, at, Strip(tool.newName), Strip(Shown(NameAt(db, at))));
  }

  lemma {:induction false} IndexOfDistinct(names: seq<string>, i: nat)
    requires Distinct(names) && i < |names|
    ensures IndexOf(names, names[i]) == Some(i)
  {
    if i > 0 {
      assert names[0] != names[i];
      IndexOfDistinct(names[1..], i - 1);
    }
  }

  lemma LocalUndo(h: Host, db: Db, entry: Address, from: string, to: string)
    requires Valid(db) && RenameLocal(h, db, entry, from, to).Done?
    ensures RenameLocal(h, RenameLocal(h, db, entry, from, to).db, entry, to, from) == Done(db) <==> h.localNameOk(from)
  {
    hide SoundLayout, NamesUnique, TextsHeld, Distinct;
    var names := db.locals[entry];
    var i := IndexOf(names, from).value;
    var changed := names[i := to];
    RenameLocalKeepsDistinct(names, i, to);
    IndexOfDistinct(changed, i);
    assert changed[i := from] == names;
    if from != to { OnlyThere(names, i, to); }
    var db1 := RenameLocal(h, db, entry, from, to).db;
    assert db1.locals[entry := names] == db.locals;
  }

  lemma OnlyThere(names: seq<string>, i: nat, to: string)
    requires Distinct(names) && i < |names| && to != names[i]
    ensures names[i] !in names[i := to]
  {
  }

  lemma PutBack<K>(m: map<K, string>, k: K, text: string, back: string)
    requires TextsHeld(m)
    ensures Put(Put(m, k, text), k, back) == m <==> back == TextAt(m, k)
  {
    assert TextAt(Put(Put(m, k, text), k, back), k) == back;
  }

  lemma CommentSet(h: Host, db: Db, at: Address, repeatable: bool, text: string)
    ensures Exec(h, db, SetComment(at, text, repeatable))
         == if Strip(text) == "" then Raised
            else if !h.commentable(at) then Refused(true)
            else Done(db.(comments := Put(db.comments, (at, repeatable), Strip(text))))
  {
    hide Strip, Put;
  }

  lemma CommentRound(h: Host, db: Db, at: Address, repeatable: bool, text: string, back: string)
    requires TextsHeld(db.comments) && Exec(h, db, SetComment(at, text, repeatable)).Done?
    ensures Exec(h, Exec(h, db, SetComment(at, text, repeatable)).db, SetComment(at, back, repeatable)) == Done(db)
       <==> Strip(back) != "" && Strip(back) == TextAt(db.comments, (at, repeatable))
  {
    hide Exec, Strip, Put, TextAt, TextsHeld;
    CommentSet(h, db, at, repeatable, text);
    CommentSet(h, Exec(h, db, SetComment(at, text, repeatable)).db, at, repeatable, back);
    PutBack(db.comments, (at, repeatable), Strip(text), Strip(back));
  }

  lemma CommentUndo(h: Host, db: Db, tool: Tool, r: Tool)
    requires Recordable(h, db, tool, r) && tool.SetComment?
    ensures Undoes(h, db, tool, r) <==> Faithful(h, db, tool)
  {
    hide Strip, Shown, NamesUnique, Distinct, SoundLayout, MembersBelong, TextAt, TextsHeld, Exec;
    CommentRound(h, db, tool.address, tool.repeatable, tool.text,
        Shown(TextAt(db.comments, (tool.address, tool.repeatable))));
    assert Strip(Shown("")) == "" by { NothingShown(); }
  }

  lemma FunctionCommentUndo(h: Host, db: Db, tool: Tool, r: Tool)
    requires Recordable(h, db, tool, r) && tool.SetFunctionComment?
    ensures Undoes(h, db, tool, r) <==> Faithful(h, db, tool)
  {
    hide Strip, Shown, NamesUnique, Distinct, SoundLayout, Put, TextAt, TextsHeld;
    PutBack(db.functionComments, (h.functionAt(tool.address).value, tool.repeatable), Strip(tool.text), Strip(r.text));
  }

  lemma PseudocodeCommentUndo(h: Host, db: Db, tool: Tool, r: Tool)
    requires Recordable(h, db, tool, r) && tool.SetPseudocodeComment?
    ensures Undoes(h, db, tool, r) <==> Faithful(h, db, tool)
  {
    hide Strip, Shown, NamesUnique, Distinct, SoundLayout, Put, TextAt, TextsHeld;
    PutBack(db.pseudocodeComments, (tool.within, h.commentLine(tool.within, tool.target).value), tool.text, r.text);
  }

  lemma {:induction false} BytesBounded(s: string)
    ensures Utf8Bytes(s) <= 4 * |s|
  {
    if s != "" { BytesBounded(s[1..]); }
  }

  lemma ReadBackIsShort(h: Host, path: string, text: string)
    ensures Utf8Bytes(ReadBack(h, path, text)) <= WRITE_MAX_BYTES
  {
    hide Utf8Bytes, MarkerAt;
    var raw := Shown(h.readHeader(path) + ":\n" + Excerpt(text));
    assert |ParseReadFile(raw)| <= |raw| <= RESULT_MAX_CHARS + |RESULT_CUT|;
    BytesBounded(ParseReadFile(raw));
  }

  lemma FilesUndo(h: Host, db: Db, tool: Tool, r: Tool)
    requires Recordable(h, db, tool, r) && tool.WriteFile?
    ensures Undoes(h, db, tool, r) <==> Faithful(h, db, tool)
  {
    hide ReadBack, Utf8Bytes, Valid;
    var p := h.writablePath(tool.path).value;
    ReadBackIsShort(h, p, db.files[p]);
    PutBackIs(db.files, p, tool.text, ReadBack(h, p, db.files[p]));
  }

  // ---------------------------------------------------------------- struct and enum members

  lemma StructRenameUndo(h: Host, fields: Layout, field: string, newName: string)
    requires SoundLayout(fields) && ActOnStruct(h, fields, RenameField(field, newName)).Changed?
    ensures ActOnStruct(h, ActOnStruct(h, fields, RenameField(field, newName)).fields, RenameField(newName, field))
              == Changed(fields)
       <==> h.fieldNameOk(field)
  {
    var o := OffsetOf(fields, field);
    var changed := fields[o := fields[o].(name := newName)];
    ReplacedKeepsSound(fields, o, changed[o]);
    OffsetOfIs(changed, newName, o);
    assert newName != field ==> !FieldExists(changed, field);
    assert changed[o := fields[o]] == fields;
  }

  lemma StructAddUndo(h: Host, fields: Layout, field: string, ctype: string, offset: int)
    requires SoundLayout(fields) && ActOnStruct(h, fields, AddField(field, ctype, offset)).Changed?
    ensures ActOnStruct(h, ActOnStruct(h, fields, AddField(field, ctype, offset)).fields, RemoveField(field))
              == Changed(fields)
       <==> Free(fields, AppendOffset(h, fields, offset), h.resolveType(ctype).value.1)
  {
    hide SoundLayout;
    var o, t := AppendOffset(h, fields, offset), h.resolveType(ctype).value;
    var f := Field(field, t.0, t.1, "");
    var added := AddAt(fields, o, f);
    AddAtKeepsSound(fields, o, f);
    OffsetOfIs(added, field, o);
    AddThenRemove(fields, o, f);
  }

  lemma AddThenRemove(fields: Layout, o: nat, f: Field)
    ensures AddAt(fields, o, f) - {o} == fields <==> Free(fields, o, f.size)
  {
    var back := AddAt(fields, o, f) - {o};
    forall p ensures p in back <==> p in fields && !Overlap(o, f.size, p, fields[p].size) { }
    if Free(fields, o, f.size) {
      assert back == fields;
    } else {
      var p :| p in fields && Overlap(o, f.size, p, fields[p].size);
      assert p !in back;
    }
  }

  lemma StructRemoveUndo(h: Host, fields: Layout, field: string, shown: ShownField)
    requires SoundLayout(fields) && FieldExists(fields, field)
    ensures var o := OffsetOf(fields, field);
            (ActOnStruct(h, fields - {o}, AddField(field, shown.ctype, shown.offset)) == Changed(fields))
            == (&& AppendOffset(h, fields - {o}, shown.offset) == o
                && h.resolveType(shown.ctype) == Some((fields[o].ctype, fields[o].size))
                && fields[o].comment == "" && h.fieldNameOk(field))
  {
    var o := OffsetOf(fields, field);
    var rest := fields - {o};
    assert !FieldExists(rest, field);
    if h.resolveType(shown.ctype).Some? && h.fieldNameOk(field) {
      var at, t := AppendOffset(h, rest, shown.offset), h.resolveType(shown.ctype).value;
      var f := Field(field, t.0, t.1, "");
      AddedBack(fields, o, at, f);
    }
  }

  lemma AddedBack(fields: Layout, o: nat, at: nat, f: Field)
    requires SoundLayout(fields) && o in fields && fields[o].name == f.name
    ensures AddAt(fields - {o}, at, f) == fields <==> at == o && f == fields[o]
  {
    var back := AddAt(fields - {o}, at, f);
    assert back[at] == f;
    assert at == o && f == fields[o] ==> back == fields;
  }

  lemma StructRetypeUndo(h: Host, fields: Layout, field: string, ctype: string, shown: string)
    requires SoundLayout(fields) && ActOnStruct(h, fields, RetypeField(field, ctype)).Changed?
    ensures var o := OffsetOf(fields, field);
            (ActOnStruct(h, ActOnStruct(h, fields, RetypeField(field, ctype)).fields, RetypeField(field, shown))
              == Changed(fields))
            == (h.resolveType(shown) == Some((fields[o].ctype, fields[o].size)))
  {
    var o := OffsetOf(fields, field);
    var t := h.resolveType(ctype).value;
    var changed := fields[o := fields[o].(ctype := t.0, size := t.1)];
    ReplacedKeepsSound(fields, o, changed[o]);
    OffsetOfIs(changed, field, o);
    assert changed - {o} == fields - {o};
    assert Free(fields - {o}, o, fields[o].size);
    if h.resolveType(shown).Some? {
      var u := h.resolveType(shown).value;
      var back := changed[o := changed[o].(ctype := u.0, size := u.1)];
      assert back == fields <==> back[o] == fields[o];
    }
  }

  lemma StructCommentUndo(h: Host, fields: Layout, field: string, comment: string, captured: string)
    requires SoundLayout(fields) && FieldExists(fields, field)
    ensures var o := OffsetOf(fields, field);
            (ActOnStruct(h, ActOnStruct(h, fields, SetFieldComment(field, comment)).fields,
                SetFieldComment(field, captured))
              == Changed(fields))
            == (captured == fields[o].comment)
  {
    var o := OffsetOf(fields, field);
    var changed := fields[o := fields[o].(comment := comment)];
    ReplacedKeepsSound(fields, o, changed[o]);
    OffsetOfIs(changed, field, o);
    var back := changed[o := changed[o].(comment := captured)];
    assert back == fields <==> back[o] == fields[o];
  }

  lemma StructActUndo(h: Host, fields: Layout, a: StructAction, pre: PreState, r: StructAction)
    requires SoundLayout(fields) && ActOnStruct(h, fields, a).Changed? && !a.Resize?
    requires ReverseStruct(a, pre) == Some(r)
    ensures ActOnStruct(h, ActOnStruct(h, fields, a).fields, r) == Changed(fields)
            <==> StructFaithful(h, fields, a, pre)
  {
    hide SoundLayout, AppendOffset, Free, AddAt, Strip;
    match a
    case RenameField(field, newName) => StructRenameUndo(h, fields, field, newName);
    case AddField(field, ctype, offset) => StructAddUndo(h, fields, field, ctype, offset);
    case RemoveField(field) => StructRemoveUndo(h, fields, field, ShownFieldOf(pre, field).value);
    case RetypeField(field, ctype) => StructRetypeUndo(h, fields, field, ctype, ShownFieldOf(pre, field).value.ctype);
    case SetFieldComment(field, comment) => StructCommentUndo(h, fields, field, comment, CapturedComment(pre, field));
  }

  lemma StructsUndo(h: Host, db: Db, tool: Tool, r: Tool)
    requires Recordable(h, db, tool, r) && tool.ModifyStruct? && !tool.structAction.Resize?
    ensures Undoes(h, db, tool, r) <==> Faithful(h, db, tool)
  {
    hide ActOnStruct, StructFaithful, ReverseStruct, SoundLayout, Strip, NamesUnique, Distinct;
    var name := Strip(tool.name);
    StructActUndo(h, db.structs[name], tool.structAction, Capture(h, db, tool), r.structAction);
    var fields1 := ActOnStruct(h, db.structs[name], tool.structAction).fields;
    var again := ActOnStruct(h, fields1, r.structAction);
    if again.Changed? { PutBackIs(db.structs, name, fields1, again.fields); }
  }

  lemma PutBackIs<K, V>(m: map<K, V>, k: K, v: V, back: V)
    requires k in m
    ensures m[k := v][k := back] == m <==> back == m[k]
  {
    assert m[k := v][k := back][k] == back;
  }

  lemma AddBackIs<K, V>(m: map<K, V>, k: K, back: V)
    requires k in m
    ensures (m - {k})[k := back] == m <==> back == m[k]
  {
    assert (m - {k})[k := back][k] == back;
  }

  lemma EnumActUndo(h: Host, db: Db, name: string, a: EnumAction, pre: PreState, r: EnumAction)
    requires ActOnEnum(h, db, name, a).Done? && ReverseEnum(a, pre) == Some(r)
    ensures ActOnEnum(h, ActOnEnum(h, db, name, a).db, name, r) == Done(db) <==> EnumFaithful(h, db.members, a, pre)
  {
    hide Strip;
    var members := db.members;
    var after := ActOnEnum(h, db, name, a).db.members;
    match a
    case AddMember(member, value) =>
      assert after - {member} == members;
    case RemoveMember(member) =>
      AddBackIs(members, member, Member(name, pre.values[member], WHOLE));
    case RenameMember(member, newName) =>
      assert (after - {newName})[member := members[member]] == members;
  }

  lemma EnumsUndo(h: Host, db: Db, tool: Tool, r: Tool)
    requires Recordable(h, db, tool, r) && tool.ModifyEnum?
    ensures Undoes(h, db, tool, r) <==> Faithful(h, db, tool)
  {
    hide Strip, ActOnEnum, EnumFaithful, ReverseEnum, NamesUnique, SoundLayout, Distinct;
    EnumActKeepsMembers(h, db, Strip(tool.name), tool.enumAction);
    EnumActUndo(h, db, Strip(tool.name), tool.enumAction, Capture(h, db, tool), r.enumAction);
  }

  lemma LocalsUndo(h: Host, db: Db, tool: Tool, r: Tool)
    requires Recordable(h, db, tool, r) && tool.RenameVariable?
    ensures Undoes(h, db, tool, r) <==> Faithful(h, db, tool)
  {
    hide Strip, RenameLocal, Valid;
    LocalUndo(h, db, tool.within, Strip(tool.oldName), Strip(tool.newName));
  }

  /** For every modelled mutation but a resize: its reverse record restores the database it started
      from, exactly, if and only if the guard `Faithful` held before the call. */
  lemma ReverseRecordsInvert(h: Host, db: Db, tool: Tool, r: Tool)
    requires Recordable(h, db, tool, r) && !(tool.ModifyStruct? && tool.structAction.Resize?)
    ensures Undoes(h, db, tool, r) <==> Faithful(h, db, tool)
  {
    hide Recordable, Undoes, Faithful;
    match tool
    case RenameFunction(_, _) => RenamesUndo(h, db, tool, r);
    case RenameAddress(_, _) => RenamesUndo(h, db, tool, r);
    case RenameVariable(_, _, _) => LocalsUndo(h, db, tool, r);
    case WriteFile(_, _, _) => FilesUndo(h, db, tool, r);
    case ModifyStruct(_, _) => StructsUndo(h, db, tool, r);
    case ModifyEnum(_, _) => EnumsUndo(h, db, tool, r);
    case SetComment(_, _, _) => CommentUndo(h, db, tool, r);
    case SetFunctionComment(_, _, _) => FunctionCommentUndo(h, db, tool, r);
    case SetPseudocodeComment(_, _, _) => PseudocodeCommentUndo(h, db, tool, r);
  }

  // ---------------------------------------------------------------- the guards that fail in practice

  /** A first comment is recorded as reversible, but its reverse call always raises. */
  lemma FirstCommentCannotBeUndone(h: Host, db: Db, address: Address, text: string, repeatable: bool)
    requires (address, repeatable) !in db.comments && Exec(h, db, SetComment(address, text, repeatable)).Done?
    ensures var tool := SetComment(address, text, repeatable);
            && Reverse(tool, Capture(h, db, tool)) == Some(SetComment(address, "", repeatable))
            && Exec(h, Exec(h, db, tool).db, SetComment(address, "", repeatable)) == Raised
  {
    hide Strip;
    assert Strip("") == "" by { StripBlank(""); }
  }

  predicate PlainHeader(header: string) {
    ':' !in header && |header| + 2 + READ_MAX_CHARS + |FILE_CUT| <= RESULT_MAX_CHARS
  }

  lemma {:induction false} MarkerAfter(header: string, text: string)
    requires ':' !in header
    ensures MarkerAt(header + ":\n" + text) == |header|
  {
    if header == "" {
      assert header + ":\n" + text == ":\n" + text;
    } else {
      MarkerAfter(header[1..], text);
      assert (header + ":\n" + text)[1..] == header[1..] + ":\n" + text;
    }
  }

  /** Undo brings back the excerpt that was read, so a file comes back exactly if it is its own excerpt:
      always up to 4000 characters, never beyond 4014. */
  lemma OverwrittenFileComesBack(h: Host, path: string, text: string)
    requires PlainHeader(h.readHeader(path))
    ensures ReadBack(h, path, text) == Excerpt(text)
    ensures |text| <= READ_MAX_CHARS ==> ReadBack(h, path, text) == text
    ensures |text| > READ_MAX_CHARS + |FILE_CUT| ==> ReadBack(h, path, text) != text
  {
    var header := h.readHeader(path);
    var raw := header + ":\n" + Excerpt(text);
    MarkerAfter(header, Excerpt(text));
    assert Shown(raw) == raw;
    assert raw[|header| + 2..] == Excerpt(text);
  }

  /** Sizes are shown as they are, and padding at the end does not shrink a struct. */
  ghost predicate HonestSizes(h: Host, name: string, fields: Layout, newSize: int) {
    && (h.shownStruct(name, fields).Some? ==> h.shownStruct(name, fields).value.size == h.structSize(fields))
    && var current := h.structSize(fields);
       newSize > current ==> h.structSize(fields[current := h.padding(current, newSize - current)]) >= current
  }

  /** A resize is recorded as reversible, but its reverse is refused with a plain text: nothing is undone
      and no error is raised. */
  lemma ResizeIsNeverUndone(h: Host, db: Db, name: string, newSize: int, r: Tool)
    requires Strip(name) == name && name in db.structs && HonestSizes(h, name, db.structs[name], newSize)
    requires var tool := ModifyStruct(name, Resize(newSize));
             Exec(h, db, tool).Done? && Reverse(tool, Capture(h, db, tool)) == Some(r)
    ensures Exec(h, Exec(h, db, ModifyStruct(name, Resize(newSize))).db, r) == Refused(false)
  {
    hide Strip, Free;
  }

  /** Without the enum module an added member stays, again behind a plain text. */
  lemma AddedMemberStaysWithoutModule(h: Host, db: Db, name: string, member: string, value: int, r: Tool)
    requires !h.hasEnumModule
    requires var tool := ModifyEnum(name, AddMember(member, value));
             Exec(h, db, tool).Done? && Reverse(tool, Capture(h, db, tool)) == Some(r)
    ensures Exec(h, Exec(h, db, ModifyEnum(name, AddMember(member, value))).db, r) == Refused(false)
  {
    hide Strip;
  }

  /** A struct name written with surrounding space finds the struct but not its pre-state: the undo of a
      member comment then clears the comment. */
  lemma PaddedNameClearsComment(h: Host, db: Db, name: string, field: string, comment: string, o: nat)
    requires Valid(db) && name !in db.structs && HasValue(name) && HasValue(field)
    requires Strip(name) in db.structs && o in db.structs[Strip(name)] && db.structs[Strip(name)][o].name == field
    ensures var tool := ModifyStruct(name, SetFieldComment(field, comment));
            var r := ModifyStruct(name, SetFieldComment(field, ""));
            && Recordable(h, db, tool, r)
            && (Undoes(h, db, tool, r) <==> db.structs[Strip(name)][o].comment == "")
  {
    hide Strip, Undoes, SoundLayout, NamesUnique, Distinct, TextsHeld, MembersBelong;
    var tool := ModifyStruct(name, SetFieldComment(field, comment));
    OffsetOfIs(db.structs[Strip(name)], field, o);
    ReverseRecordsInvert(h, db, tool, ModifyStruct(name, SetFieldComment(field, "")));
  }

  ghost predicate CoversFields(h: Host, fields: Layout) {
    forall o | o in fields :: o + fields[o].size <= h.structSize(fields) && fields[o].size > 0
  }

  /** A member appended at the end is always removed without a trace. */
  lemma AppendedFieldIsUndone(h: Host, db: Db, name: string, field: string, ctype: string, offset: int)
    requires offset < 0 && Strip(name) in db.structs && CoversFields(h, db.structs[Strip(name)])
    requires h.resolveType(ctype).Some?
    ensures Faithful(h, db, ModifyStruct(name, AddField(field, ctype, offset)))
  {
    hide Strip;
  }

  // ---------------------------------------------------------------- what gets recorded

  /** Read-back verification of the five tools that have one, after the tool succeeded. */
  predicate Verified(h: Host, after: Db, tool: Tool) {
    match tool
    case RenameFunction(address, newName) =>
      Shown(if h.functionAt(address).None? then "" else NameAt(after, h.functionAt(address).value)) == newName
    case RenameAddress(address, newName) => Shown(NameAt(after, address)) == newName
    case SetComment(address, text, repeatable) => Shown(TextAt(after.comments, (address, repeatable))) == text
    case SetFunctionComment(address, text, repeatable) =>
      h.functionAt(address).Some?
          && Shown(TextAt(after.functionComments, (h.functionAt(address).value, repeatable))) == text
    case SetPseudocodeComment(within, target, text) =>
      var line := h.commentLine(within, target);
      && line.Some?
      && var now := TextAt(after.pseudocodeComments, (within, line.value));
         h.jsonLength(now) <= RESULT_MAX_CHARS && now == text
    case _ => true
  }

  lemma ShownKeepsTrimmed(s: string)
    requires Strip(s) == s && s != ""
    ensures Strip(Shown(s)) == Shown(s)
  {
    var t := Shown(s);
    assert !IsSpace(s[0]) by { TrimmedEnds(s); }
    assert !IsSpace(s[|s| - 1]) by { TrimmedEnds(s); }
    assert t[0] == s[0];
    assert !IsSpace(t[|t| - 1]);
    assert LStrip(t) == t && RStrip(t) == t;
  }

  lemma TrimmedEnds(s: string)
    requires Strip(s) == s && s != ""
    ensures !IsSpace(s[0]) && !IsSpace(s[|s| - 1])
  {
    hide IsSpace;
    var l := LStrip(s);
    assert |RStrip(l)| <= |l| <= |s|;
    assert l == s;
  }

  /** Text that the tools would trim is never recorded: what is on the undo stack was stored as asked. */
  lemma OnlyTrimmedTextIsRecorded(h: Host, db: Db, tool: Tool)
    requires tool.SetComment? || tool.SetFunctionComment?
    requires Exec(h, db, tool).Done? && Verified(h, Exec(h, db, tool).db, tool)
    ensures Strip(tool.text) == tool.text
  {
    hide Strip, Shown;
    StripStrip(tool.text);
    ShownKeepsTrimmed(Strip(tool.text));
  }

  /** Descriptions show the size there is and no enum member there is not. */
  ghost predicate HonestPreState(h: Host, db: Db, tool: Tool) {
    var pre := Capture(h, db, tool);
    && (tool.ModifyStruct? && Strip(tool.name) in db.structs && pre.OldStruct? ==>
          pre.info.size == h.structSize(db.structs[Strip(tool.name)]))
    && (tool.ModifyEnum? && pre.OldEnum? ==> pre.values.Keys <= db.members.Keys)
  }

  lemma RefusedStructActIsHarmless(h: Host, fields: Layout, a: StructAction, pre: PreState, r: StructAction)
    requires SoundLayout(fields) && !a.RetypeField? && ActOnStruct(h, fields, a) == Kept(false)
    requires ReverseStruct(a, pre) == Some(r) && (pre.OldStruct? ==> pre.info.size == h.structSize(fields))
    ensures ActOnStruct(h, fields, r).Kept?
  {
    hide SoundLayout, Free, Strip;
  }

  lemma RefusedEnumActIsHarmless(h: Host, db: Db, name: string, a: EnumAction, pre: PreState, r: EnumAction)
    requires ActOnEnum(h, db, name, a) == Refused(false)
    requires ReverseEnum(a, pre) == Some(r) && (pre.OldEnum? ==> pre.values.Keys <= db.members.Keys)
    ensures ActOnEnum(h, db, name, r).Refused?
  {
    hide Strip;
  }

  /** Some refusals of a member edit are not noticed and are recorded all the same; undoing such a record
      then changes nothing, except that a refused retype may be undone to what its description showed. */
  lemma UnnoticedRefusalIsHarmless(h: Host, db: Db, tool: Tool, r: Tool)
    requires Valid(db) && Exec(h, db, tool) == Refused(false) && Reverse(tool, Capture(h, db, tool)) == Some(r)
    requires HonestPreState(h, db, tool) && !(tool.ModifyStruct? && tool.structAction.RetypeField?)
    ensures tool.ModifyStruct? || tool.ModifyEnum?
    ensures Exec(h, db, r).After(db) == db
  {
    hide Strip, ActOnStruct, ActOnEnum, ReverseStruct, ReverseEnum, SoundLayout, NamesUnique, Distinct, TextsHeld,
         Write, SetName, RenameLocal;
    assert tool.ModifyStruct? || tool.ModifyEnum? by { OnlyMembersRefuseUnnoticed(h, db, tool); }
    if tool.ModifyStruct? {
      RefusedStructActIsHarmless(h, db.structs[Strip(tool.name)], tool.structAction, Capture(h, db, tool),
          r.structAction);
    } else {
      RefusedEnumActIsHarmless(h, db, Strip(tool.name), tool.enumAction, Capture(h, db, tool), r.enumAction);
    }
  }

  lemma OnlyMembersRefuseUnnoticed(h: Host, db: Db, tool: Tool)
    requires Exec(h, db, tool) == Refused(false)
    ensures tool.ModifyStruct? || tool.ModifyEnum?
  {
    hide Strip, ActOnStruct, ActOnEnum, Utf8Bytes, Taken, Put;
  }
}
