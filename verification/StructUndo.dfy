/** With the struct description really printed and read back: which member edits of a plain struct can
    be undone. */
module StructUndo {
  import opened Wrappers
  import opened Text
  import opened Database
  import opened StructText
  import Mutation

  function AsShownField(e: Entry): ShownField {
    ShownField(e.ctype, e.offset, e.comment)
  }

  /** Members are looked up by name, the first one first. */
  function FieldsOf(entries: seq<Entry>): map<string, ShownField> {
    if |entries| == 0 then map[] else FieldsOf(entries[1..])[entries[0].name := AsShownField(entries[0])]
  }

  function AsShown(info: Option<Info>): Option<ShownStruct> {
    if info.None? || info.value.size < 0 then None
    else Some(ShownStruct(info.value.size, FieldsOf(info.value.entries)))
  }

  function EntryOf(layout: Layout, o: nat): Entry
    requires o in layout
  {
    Entry(layout[o].name, layout[o].ctype, o, layout[o].size, layout[o].comment)
  }

  /** The host lists every member of the layout, and nothing else. */
  ghost predicate Lists(entries: seq<Entry>, layout: Layout) {
    && (forall e | e in entries :: e.offset in layout && e == EntryOf(layout, e.offset))
    && (forall o | o in layout :: EntryOf(layout, o) in entries)
  }

  function DescribedAs(h: Host, name: string, layout: Layout, entries: seq<Entry>): Info {
    Info(name, h.structSize(layout), entries)
  }

  /** The pre-state is what the printed, possibly cut description says. */
  ghost predicate ReadsDescription(h: Host, num: Numerals, name: string, layout: Layout, entries: seq<Entry>) {
    h.shownStruct(name, layout)
    == AsShown(ParsedInfo(num, Mutation.Shown(Describe(num, DescribedAs(h, name, layout, entries)))))
  }

  /** A struct whose description is read back whole. */
  ghost predicate PlainStruct(h: Host, num: Numerals, db: Db, name: string, entries: seq<Entry>) {
    && Valid(db) && Strip(name) == name && name in db.structs && Lawful(num)
    && var layout := db.structs[name];
       && Lists(entries, layout) && ReadsDescription(h, num, name, layout, entries)
       && PlainInfo(DescribedAs(h, name, layout, entries))
       && |Describe(num, DescribedAs(h, name, layout, entries))| <= Mutation.RESULT_MAX_CHARS
  }

  lemma {:induction false} FieldFound(entries: seq<Entry>, e: Entry)
    requires e in entries && forall f | f in entries && f.name == e.name :: f == e
    ensures e.name in FieldsOf(entries) && FieldsOf(entries)[e.name] == AsShownField(e)
  {
    if entries[0] != e {
      assert e in entries[1..];
      assert entries[0] in entries;
      FieldFound(entries[1..], e);
    }
  }

  /** Every member of a plain struct is captured exactly. */
  lemma MemberIsCaptured(h: Host, num: Numerals, db: Db, name: string, entries: seq<Entry>, o: nat, a: StructAction)
    requires PlainStruct(h, num, db, name, entries) && o in db.structs[name]
    ensures var f := db.structs[name][o];
            Mutation.ShownFieldOf(Mutation.Capture(h, db, ModifyStruct(name, a)), f.name)
              == Some(ShownField(f.ctype, o, f.comment))
  {
    hide ParsedInfo, Describe, PlainInfo, Lawful, Strip;
    var layout := db.structs[name];
    var info := DescribedAs(h, name, layout, entries);
    assert name != "" && info.size >= 0 by { PlainHeader(info); }
    DescriptionReadsBack(num, info);
    assert Mutation.Shown(Describe(num, info)) == Describe(num, info);
    var e := EntryOf(layout, o);
    forall f | f in entries && f.name == e.name ensures f == e {
      SameNameSamePlace(layout, f.offset, o);
    }
    FieldFound(entries, e);
  }

  lemma SameNameSamePlace(layout: Layout, o: nat, p: nat)
    requires SoundLayout(layout) && o in layout && p in layout && layout[o].name == layout[p].name
    ensures o == p
  {
  }

  /** In a plain struct every member comment can be undone, and a retype whenever the member's type text
      names its type; a removed member comes back if and only if it had no comment, its name is accepted
      and its type text names its type. */
  lemma PlainMemberUndo(h: Host, num: Numerals, db: Db, name: string, entries: seq<Entry>, o: nat, text: string)
    requires PlainStruct(h, num, db, name, entries) && o in db.structs[name]
    ensures var f := db.structs[name][o];
            var named := h.resolveType(f.ctype) == Some((f.ctype, f.size));
            && Mutation.Faithful(h, db, ModifyStruct(name, SetFieldComment(f.name, text)))
            && (Mutation.Faithful(h, db, ModifyStruct(name, RetypeField(f.name, text))) <==> named)
            && (Mutation.Faithful(h, db, ModifyStruct(name, RemoveField(f.name)))
                <==> named && f.comment == "" && h.fieldNameOk(f.name))
  {
    hide ParsedInfo, Describe, PlainInfo, Lawful, Strip, Mutation.Capture, Lists, ReadsDescription, SoundLayout;
    var f := db.structs[name][o];
    MemberIsCaptured(h, num, db, name, entries, o, SetFieldComment(f.name, text));
    MemberIsCaptured(h, num, db, name, entries, o, RetypeField(f.name, text));
    MemberIsCaptured(h, num, db, name, entries, o, RemoveField(f.name));
    OffsetOfIs(db.structs[name], f.name, o);
  }
}
