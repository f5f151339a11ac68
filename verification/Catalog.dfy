/**
 Merging the providers' catalogs in registration order: what a picker finds under an id, and where it
 finds it.
 */
module Catalog {
  import opened Prelude

  type Id = string

  datatype FormatSpec = FormatSpec(id: Id, advisory: bool, body: string)

  datatype OptionSpec = OptionSpec(id: Id, body: string)

  datatype TypeSpec = TypeSpec(
    id: Id, title: string, formats: seq<FormatSpec>, defaultFormat: Id, options: seq<OptionSpec>)

  datatype Provided = Provided(types: seq<TypeSpec>)

  // -- the program's fold ------------------------------------------------------------------

  function FindFormat(fs: seq<FormatSpec>, id: Id): (k: nat)
    ensures k <= |fs| && (k < |fs| ==> fs[k].id == id)
    ensures forall j :: 0 <= j < k ==> fs[j].id != id
  {
    if fs == [] || fs[0].id == id then 0 else 1 + FindFormat(fs[1..], id)
  }

  function FindOption(os: seq<OptionSpec>, id: Id): (k: nat)
    ensures k <= |os| && (k < |os| ==> os[k].id == id)
    ensures forall j :: 0 <= j < k ==> os[j].id != id
  {
    if os == [] || os[0].id == id then 0 else 1 + FindOption(os[1..], id)
  }

  function FindType(ts: seq<TypeSpec>, id: Id): (k: nat)
    ensures k <= |ts| && (k < |ts| ==> ts[k].id == id)
    ensures forall j :: 0 <= j < k ==> ts[j].id != id
  {
    if ts == [] || ts[0].id == id then 0 else 1 + FindType(ts[1..], id)
  }

  function AddFormat(acc: seq<FormatSpec>, f: FormatSpec): seq<FormatSpec> {
    var k := FindFormat(acc, f.id);
    if k == |acc| then acc + [f]
    else if acc[k].advisory && !f.advisory then acc[k := f]
    else acc
  }

  function AddFormats(acc: seq<FormatSpec>, fs: seq<FormatSpec>): seq<FormatSpec> {
    if fs == [] then acc else AddFormat(AddFormats(acc, fs[..|fs| - 1]), fs[|fs| - 1])
  }

  function AddOption(acc: seq<OptionSpec>, o: OptionSpec): seq<OptionSpec> {
    if FindOption(acc, o.id) == |acc| then acc + [o] else acc
  }

  function AddOptions(acc: seq<OptionSpec>, os: seq<OptionSpec>): seq<OptionSpec> {
    if os == [] then acc else AddOption(AddOptions(acc, os[..|os| - 1]), os[|os| - 1])
  }

  function Extend(t: TypeSpec, more: TypeSpec): TypeSpec {
    t.(formats := AddFormats(t.formats, more.formats), options := AddOptions(t.options, more.options))
  }

  function AddType(acc: seq<TypeSpec>, t: TypeSpec): seq<TypeSpec> {
    var k := FindType(acc, t.id);
    if k == |acc| then acc + [t]
    else acc[k := Extend(acc[k], t)]
  }

  function AddTypes(acc: seq<TypeSpec>, ts: seq<TypeSpec>): seq<TypeSpec> {
    if ts == [] then acc else AddType(AddTypes(acc, ts[..|ts| - 1]), ts[|ts| - 1])
  }

  /** Every declaration, in registration order. */
  function Declared(catalogs: seq<Provided>): seq<TypeSpec> {
    if catalogs == [] then []
    else Declared(catalogs[..|catalogs| - 1]) + catalogs[|catalogs| - 1].types
  }

  // -- what the merged catalog should be ------------------------------------------------------

  /** The first declaration of an id. */
  function First(fs: seq<FormatSpec>, id: Id): Option<FormatSpec> {
    if fs == [] then None else if fs[0].id == id then Some(fs[0]) else First(fs[1..], id)
  }

  /** The first declaration that is not a placeholder. */
  function FirstReal(fs: seq<FormatSpec>, id: Id): Option<FormatSpec> {
    if fs == [] then None
    else if fs[0].id == id && !fs[0].advisory then Some(fs[0])
    else FirstReal(fs[1..], id)
  }

  function Owner(fs: seq<FormatSpec>, id: Id): Option<FormatSpec> {
    if FirstReal(fs, id).Some? then FirstReal(fs, id) else First(fs, id)
  }

  /** The ids in the order of their first declarations. */
  function Slots(ids: seq<Id>): seq<Id> {
    if ids == [] then []
    else
      var earlier, last := Slots(ids[..|ids| - 1]), ids[|ids| - 1];
      if last in earlier then earlier else earlier + [last]
  }

  function FormatIds(fs: seq<FormatSpec>): (ids: seq<Id>)
    ensures |ids| == |fs| && forall i :: 0 <= i < |fs| ==> ids[i] == fs[i].id
  {
    seq(|fs|, i requires 0 <= i < |fs| => fs[i].id)
  }

  function TypeIds(ts: seq<TypeSpec>): (ids: seq<Id>)
    ensures |ids| == |ts| && forall i :: 0 <= i < |ts| ==> ids[i] == ts[i].id
  {
    seq(|ts|, i requires 0 <= i < |ts| => ts[i].id)
  }

  function OptionIds(os: seq<OptionSpec>): (ids: seq<Id>)
    ensures |ids| == |os| && forall i :: 0 <= i < |os| ==> ids[i] == os[i].id
  {
    seq(|os|, i requires 0 <= i < |os| => os[i].id)
  }

  lemma {:induction false} SlotsMean(ids: seq<Id>)
    ensures Distinct(Slots(ids))
    ensures forall id :: id in Slots(ids) <==> id in ids
  {
    if ids != [] {
      SlotsMean(ids[..|ids| - 1]);
      assert ids == ids[..|ids| - 1] + [ids[|ids| - 1]];
    }
  }

  /** A merged list of formats: one per id, in slot order, each the id's owner. */
  ghost predicate Merges(merged: seq<FormatSpec>, fs: seq<FormatSpec>) {
    && FormatIds(merged) == Slots(FormatIds(fs))
    && forall k :: 0 <= k < |merged| ==> Owner(fs, merged[k].id) == Some(merged[k])
  }

  lemma {:induction false} FirstAppends(fs: seq<FormatSpec>, f: FormatSpec, id: Id)
    ensures First(fs + [f], id) ==
            if First(fs, id).Some? then First(fs, id) else if f.id == id then Some(f) else None
    ensures FirstReal(fs + [f], id) ==
            if FirstReal(fs, id).Some? then FirstReal(fs, id)
            else if f.id == id && !f.advisory then Some(f) else None
    ensures First(fs, id).Some? <==> id in FormatIds(fs)
    ensures FirstReal(fs, id).Some? ==> First(fs, id).Some? && !FirstReal(fs, id).value.advisory
    ensures FirstReal(fs, id).None? && First(fs, id).Some? ==> First(fs, id).value.advisory
  {
    if fs == [] {
      assert fs + [f] == [f];
    } else {
      assert (fs + [f])[1..] == fs[1..] + [f];
      FirstAppends(fs[1..], f, id);
      assert FormatIds(fs) == [fs[0].id] + FormatIds(fs[1..]);
    }
  }

  lemma SlotsGrow(ids: seq<Id>, id: Id)
    ensures Slots(ids + [id]) == if id in ids then Slots(ids) else Slots(ids) + [id]
  {
    SlotsMean(ids);
    assert (ids + [id])[..|ids|] == ids;
  }

  lemma FormatIdsGrow(fs: seq<FormatSpec>, f: FormatSpec)
    ensures FormatIds(fs + [f]) == FormatIds(fs) + [f.id]
  {
  }

  lemma ListedExactly(fs: seq<FormatSpec>, id: Id)
    ensures id in FormatIds(fs) <==> FindFormat(fs, id) < |fs|
  {
    if FindFormat(fs, id) < |fs| { assert FormatIds(fs)[FindFormat(fs, id)] == id; }
  }

  lemma ReplacedIds(fs: seq<FormatSpec>, k: nat, f: FormatSpec)
    requires k < |fs| && fs[k].id == f.id
    ensures FormatIds(fs[k := f]) == FormatIds(fs)
  {
  }

  lemma AddFormatIds(merged: seq<FormatSpec>, fs: seq<FormatSpec>, f: FormatSpec)
    requires FormatIds(merged) == Slots(FormatIds(fs))
    ensures FormatIds(AddFormat(merged, f)) == Slots(FormatIds(fs + [f]))
  {
    FormatIdsGrow(fs, f);
    SlotsGrow(FormatIds(fs), f.id);
    SlotsMean(FormatIds(fs));
    ListedExactly(merged, f.id);
    var k := FindFormat(merged, f.id);
    if k < |merged| {
      ReplacedIds(merged, k, f);
    } else {
      FormatIdsGrow(merged, f);
    }
  }

  lemma OtherFormatId(merged: seq<FormatSpec>, ids: seq<Id>, f: FormatSpec, j: nat)
    requires FormatIds(merged) == Slots(ids) && j < |merged| && j != FindFormat(merged, f.id)
    ensures merged[j].id != f.id
  {
    SlotsMean(ids);
    var k := FindFormat(merged, f.id);
    if k < |merged| { assert FormatIds(merged)[j] != FormatIds(merged)[k]; }
  }

  lemma NotYetDeclared(merged: seq<FormatSpec>, ids: seq<Id>, id: Id)
    requires FormatIds(merged) == Slots(ids)
    ensures FindFormat(merged, id) == |merged| <==> id !in ids
  {
    SlotsMean(ids);
    ListedExactly(merged, id);
  }

  lemma AddFormatOwner(merged: seq<FormatSpec>, fs: seq<FormatSpec>, f: FormatSpec, j: nat)
    requires FormatIds(merged) == Slots(FormatIds(fs)) && j < |AddFormat(merged, f)|
    requires j < |merged| ==> Owner(fs, merged[j].id) == Some(merged[j])
    ensures var next := AddFormat(merged, f);
      Owner(fs + [f], next[j].id) == Some(next[j])
  {
    FirstAppends(fs, f, AddFormat(merged, f)[j].id);
    NotYetDeclared(merged, FormatIds(fs), f.id);
    if j < |merged| && j != FindFormat(merged, f.id) {
      OtherFormatId(merged, FormatIds(fs), f, j);
    }
  }

  /** One step of the loop is one more declaration. */
  lemma AddFormatMerges(merged: seq<FormatSpec>, fs: seq<FormatSpec>, f: FormatSpec)
    requires Merges(merged, fs)
    ensures Merges(AddFormat(merged, f), fs + [f])
  {
    AddFormatIds(merged, fs, f);
    forall j | 0 <= j < |AddFormat(merged, f)|
      ensures Owner(fs + [f], AddFormat(merged, f)[j].id) == Some(AddFormat(merged, f)[j])
    {
      AddFormatOwner(merged, fs, f, j);
    }
  }

  lemma {:induction false} AddFormatsMerges(merged: seq<FormatSpec>, fs: seq<FormatSpec>, more: seq<FormatSpec>)
    requires Merges(merged, fs)
    ensures Merges(AddFormats(merged, more), fs + more)
  {
    if more == [] {
      assert fs + more == fs;
    } else {
      var earlier, f := more[..|more| - 1], more[|more| - 1];
      AddFormatsMerges(merged, fs, earlier);
      AddFormatMerges(AddFormats(merged, earlier), fs + earlier, f);
      assert fs + more == fs + earlier + [f];
    }
  }

  /** The first format of each id: what a search of the list can find. */
  function Heads(fs: seq<FormatSpec>): seq<FormatSpec> {
    if fs == [] then []
    else
      var earlier, last := Heads(fs[..|fs| - 1]), fs[|fs| - 1];
      if last.id in FormatIds(fs[..|fs| - 1]) then earlier else earlier + [last]
  }

  lemma {:induction false} HeadsKeepIds(fs: seq<FormatSpec>)
    ensures FormatIds(Heads(fs)) == Slots(FormatIds(fs)) && Distinct(FormatIds(Heads(fs)))
    ensures forall id :: id in FormatIds(Heads(fs)) <==> id in FormatIds(fs)
  {
    SlotsMean(FormatIds(fs));
    if fs != [] {
      var earlier, f := fs[..|fs| - 1], fs[|fs| - 1];
      assert FormatIds(fs)[..|earlier|] == FormatIds(earlier);
      SlotsMean(FormatIds(earlier));
      HeadsKeepIds(earlier);
      assert FormatIds(Heads(earlier) + [f]) == FormatIds(Heads(earlier)) + [f.id];
    }
  }

  /** A search looks at the heads alone. */
  lemma {:induction false} HeadIsFound(fs: seq<FormatSpec>, id: Id)
    ensures First(Heads(fs), id) == First(fs, id)
    ensures First(fs, id) == (var k := FindFormat(fs, id); if k == |fs| then None else Some(fs[k]))
  {
    if fs != [] {
      var earlier, f := fs[..|fs| - 1], fs[|fs| - 1];
      HeadIsFound(earlier, id);
      assert fs == earlier + [f];
      FirstAppends(earlier, f, id);
      FirstAppends(Heads(earlier), f, id);
      FindAppends(earlier, f, id);
      if f.id in FormatIds(earlier) && f.id == id { FirstAppends(earlier, f, f.id); }
    }
  }

  lemma {:induction false} FindAppends(fs: seq<FormatSpec>, f: FormatSpec, id: Id)
    ensures FindFormat(fs + [f], id) ==
            if FindFormat(fs, id) < |fs| then FindFormat(fs, id) else if f.id == id then |fs| else |fs| + 1
  {
    if fs == [] {
      assert fs + [f] == [f] && [f][1..] == [];
    } else if fs[0].id != id {
      assert (fs + [f])[1..] == fs[1..] + [f];
      FindAppends(fs[1..], f, id);
    }
  }

  lemma HeadsGrow(fs: seq<FormatSpec>, f: FormatSpec)
    ensures Heads(fs + [f]) == if f.id in FormatIds(fs) then Heads(fs) else Heads(fs) + [f]
  {
    assert (fs + [f])[..|fs|] == fs;
  }

  lemma ReplaceInFront(fs: seq<FormatSpec>, last: FormatSpec, k: nat, f: FormatSpec)
    requires k < |fs| && fs[k].id == f.id
    ensures (fs + [last])[k := f] == fs[k := f] + [last] && FormatIds(fs[k := f]) == FormatIds(fs)
  {
  }

  /** Replacing the first format of an id replaces that head. */
  ghost predicate Replaces(fs: seq<FormatSpec>, f: FormatSpec) {
    var k, h := FindFormat(fs, f.id), FindFormat(Heads(fs), f.id);
    k < |fs| && h < |Heads(fs)| && Heads(fs)[h] == fs[k] && Heads(fs[k := f]) == Heads(fs)[h := f]
  }

  lemma ReplaceEarlier(earlier: seq<FormatSpec>, last: FormatSpec, f: FormatSpec)
    requires Replaces(earlier, f)
    ensures Replaces(earlier + [last], f)
  {
    var k, h := FindFormat(earlier, f.id), FindFormat(Heads(earlier), f.id);
    FindAppends(earlier, last, f.id);
    HeadsGrow(earlier, last);
    FindAppends(Heads(earlier), last, f.id);
    ReplaceInFront(earlier, last, k, f);
    HeadsGrow(earlier[k := f], last);
    ReplaceInFront(Heads(earlier), last, h, f);
  }

  lemma UpdateLast(fs: seq<FormatSpec>, last: FormatSpec, f: FormatSpec)
    ensures (fs + [last])[|fs| := f] == fs + [f]
  {
  }

  lemma FoundLast(fs: seq<FormatSpec>, last: FormatSpec)
    requires last.id !in FormatIds(fs)
    ensures FindFormat(fs + [last], last.id) == |fs|
  {
    ListedExactly(fs, last.id);
    FindAppends(fs, last, last.id);
  }

  lemma ReplaceLast(earlier: seq<FormatSpec>, last: FormatSpec, f: FormatSpec)
    requires f.id !in FormatIds(earlier) && last.id == f.id
    ensures Replaces(earlier + [last], f)
  {
    var heads := Heads(earlier);
    assert f.id !in FormatIds(heads) by { HeadsKeepIds(earlier); }
    FoundLast(earlier, last);
    FoundLast(heads, last);
    assert Heads(earlier + [last]) == heads + [last] by { HeadsGrow(earlier, last); }
    assert Heads(earlier + [f]) == heads + [f] by { HeadsGrow(earlier, f); }
    UpdateLast(earlier, last, f);
    UpdateLast(heads, last, f);
  }

  lemma {:induction false} ReplaceHead(fs: seq<FormatSpec>, f: FormatSpec)
    requires FindFormat(fs, f.id) < |fs|
    ensures Replaces(fs, f)
  {
    var earlier, last := fs[..|fs| - 1], fs[|fs| - 1];
    assert fs == earlier + [last];
    FindAppends(earlier, last, f.id);
    if FindFormat(earlier, f.id) < |earlier| {
      ReplaceHead(earlier, f);
      ReplaceEarlier(earlier, last, f);
    } else {
      ListedExactly(earlier, f.id);
      ReplaceLast(earlier, last, f);
    }
  }

  lemma AddToHeads(acc: seq<FormatSpec>, f: FormatSpec)
    ensures Heads(AddFormat(acc, f)) == AddFormat(Heads(acc), f)
  {
    ListedExactly(acc, f.id);
    ListedExactly(Heads(acc), f.id);
    HeadsKeepIds(acc);
    if FindFormat(acc, f.id) < |acc| {
      ReplaceHead(acc, f);
    } else {
      assert (acc + [f])[..|acc|] == acc;
    }
  }

  lemma {:induction false} AddAllToHeads(acc: seq<FormatSpec>, fs: seq<FormatSpec>)
    ensures Heads(AddFormats(acc, fs)) == AddFormats(Heads(acc), fs)
  {
    if fs != [] {
      AddAllToHeads(acc, fs[..|fs| - 1]);
      AddToHeads(AddFormats(acc, fs[..|fs| - 1]), fs[|fs| - 1]);
    }
  }

  /** Adding repeats no id that was not repeated before. */
  lemma {:induction false} AddingRepeatsNothing(acc: seq<FormatSpec>, fs: seq<FormatSpec>)
    ensures Distinct(FormatIds(AddFormats(acc, fs))) <==> Distinct(FormatIds(acc))
  {
    if fs != [] {
      var before, f := AddFormats(acc, fs[..|fs| - 1]), fs[|fs| - 1];
      AddingRepeatsNothing(acc, fs[..|fs| - 1]);
      ListedExactly(before, f.id);
      if FindFormat(before, f.id) == |before| {
        OneMoreIsDistinct(FormatIds(before), f.id);
        assert FormatIds(before + [f]) == FormatIds(before) + [f.id];
      } else {
        assert FormatIds(AddFormat(before, f)) == FormatIds(before);
      }
    }
  }

  lemma OneMoreIsDistinct(ids: seq<Id>, id: Id)
    requires id !in ids
    ensures Distinct(ids + [id]) <==> Distinct(ids)
  {
    if Distinct(ids + [id]) {
      forall i, j | 0 <= i < j < |ids| ensures ids[i] != ids[j] {
        assert (ids + [id])[i] != (ids + [id])[j];
      }
    }
  }

  lemma FrontIsDistinct(ids: seq<Id>, id: Id)
    requires Distinct(ids + [id])
    ensures Distinct(ids) && id !in ids
  {
    assert forall i :: 0 <= i < |ids| ==> ids[i] == (ids + [id])[i] != (ids + [id])[|ids|];
    OneMoreIsDistinct(ids, id);
  }

  /** A list without repeated ids is its own merge. */
  lemma {:induction false} UniqueIsMerged(fs: seq<FormatSpec>)
    requires Distinct(FormatIds(fs))
    ensures Merges(fs, fs)
  {
    if fs != [] {
      var earlier, f := fs[..|fs| - 1], fs[|fs| - 1];
      assert fs == earlier + [f];
      FormatIdsGrow(earlier, f);
      FrontIsDistinct(FormatIds(earlier), f.id);
      UniqueIsMerged(earlier);
      ListedExactly(earlier, f.id);
      AddFormatMerges(earlier, earlier, f);
    }
  }

  // -- options: the first declaration keeps the id -------------------------------------------------

  function FirstOption(os: seq<OptionSpec>, id: Id): Option<OptionSpec> {
    if os == [] then None else if os[0].id == id then Some(os[0]) else FirstOption(os[1..], id)
  }

  ghost predicate MergesOptions(merged: seq<OptionSpec>, os: seq<OptionSpec>) {
    && OptionIds(merged) == Slots(OptionIds(os))
    && forall k :: 0 <= k < |merged| ==> FirstOption(os, merged[k].id) == Some(merged[k])
  }

  lemma {:induction false} FirstOptionAppends(os: seq<OptionSpec>, o: OptionSpec, id: Id)
    ensures FirstOption(os + [o], id) ==
            if FirstOption(os, id).Some? then FirstOption(os, id) else if o.id == id then Some(o) else None
    ensures FirstOption(os, id).Some? <==> id in OptionIds(os)
  {
    if os == [] {
      assert os + [o] == [o];
    } else {
      assert (os + [o])[1..] == os[1..] + [o];
      FirstOptionAppends(os[1..], o, id);
      assert OptionIds(os) == [os[0].id] + OptionIds(os[1..]);
    }
  }

  lemma OptionIdsGrow(os: seq<OptionSpec>, o: OptionSpec)
    ensures OptionIds(os + [o]) == OptionIds(os) + [o.id]
  {
  }

  lemma OptionListedExactly(os: seq<OptionSpec>, id: Id)
    ensures id in OptionIds(os) <==> FindOption(os, id) < |os|
  {
    if FindOption(os, id) < |os| { assert OptionIds(os)[FindOption(os, id)] == id; }
  }

  lemma AddOptionIds(merged: seq<OptionSpec>, os: seq<OptionSpec>, o: OptionSpec)
    requires OptionIds(merged) == Slots(OptionIds(os))
    ensures OptionIds(AddOption(merged, o)) == Slots(OptionIds(os + [o]))
    ensures FindOption(merged, o.id) == |merged| <==> o.id !in OptionIds(os)
  {
    OptionIdsGrow(os, o);
    SlotsGrow(OptionIds(os), o.id);
    SlotsMean(OptionIds(os));
    OptionListedExactly(merged, o.id);
    OptionIdsGrow(merged, o);
  }

  lemma AddOptionMerges(merged: seq<OptionSpec>, os: seq<OptionSpec>, o: OptionSpec)
    requires MergesOptions(merged, os)
    ensures MergesOptions(AddOption(merged, o), os + [o])
  {
    AddOptionIds(merged, os, o);
    var next := AddOption(merged, o);
    forall j | 0 <= j < |next|
      ensures FirstOption(os + [o], next[j].id) == Some(next[j])
    {
      FirstOptionAppends(os, o, next[j].id);
    }
  }

  lemma {:induction false} AddOptionsMerges(merged: seq<OptionSpec>, os: seq<OptionSpec>, more: seq<OptionSpec>)
    requires MergesOptions(merged, os)
    ensures MergesOptions(AddOptions(merged, more), os + more)
  {
    if more == [] {
      assert os + more == os;
    } else {
      var earlier, o := more[..|more| - 1], more[|more| - 1];
      AddOptionsMerges(merged, os, earlier);
      AddOptionMerges(AddOptions(merged, earlier), os + earlier, o);
      assert os + more == os + earlier + [o];
    }
  }

  function OptionHeads(os: seq<OptionSpec>): seq<OptionSpec> {
    if os == [] then []
    else
      var earlier, last := OptionHeads(os[..|os| - 1]), os[|os| - 1];
      if last.id in OptionIds(os[..|os| - 1]) then earlier else earlier + [last]
  }

  lemma {:induction false} OptionHeadsKeepIds(os: seq<OptionSpec>)
    ensures OptionIds(OptionHeads(os)) == Slots(OptionIds(os)) && Distinct(OptionIds(OptionHeads(os)))
    ensures forall id :: id in OptionIds(OptionHeads(os)) <==> id in OptionIds(os)
  {
    SlotsMean(OptionIds(os));
    if os != [] {
      var earlier, o := os[..|os| - 1], os[|os| - 1];
      assert OptionIds(os)[..|earlier|] == OptionIds(earlier);
      SlotsMean(OptionIds(earlier));
      OptionHeadsKeepIds(earlier);
      assert OptionIds(OptionHeads(earlier) + [o]) == OptionIds(OptionHeads(earlier)) + [o.id];
    }
  }

  lemma {:induction false} AddAllToOptionHeads(acc: seq<OptionSpec>, os: seq<OptionSpec>)
    ensures OptionHeads(AddOptions(acc, os)) == AddOptions(OptionHeads(acc), os)
  {
    if os != [] {
      var before, o := AddOptions(acc, os[..|os| - 1]), os[|os| - 1];
      AddAllToOptionHeads(acc, os[..|os| - 1]);
      OptionHeadsKeepIds(before);
      OptionListedExactly(before, o.id);
      OptionListedExactly(OptionHeads(before), o.id);
      assert (before + [o])[..|before|] == before;
    }
  }

  lemma {:induction false} UniqueOptionsAreMerged(os: seq<OptionSpec>)
    requires Distinct(OptionIds(os))
    ensures MergesOptions(os, os)
  {
    if os != [] {
      var earlier, o := os[..|os| - 1], os[|os| - 1];
      assert os == earlier + [o];
      OptionIdsGrow(earlier, o);
      FrontIsDistinct(OptionIds(earlier), o.id);
      UniqueOptionsAreMerged(earlier);
      OptionListedExactly(earlier, o.id);
      AddOptionMerges(earlier, earlier, o);
    }
  }

  // -- download types --------------------------------------------------------------------------------

  /**
   Every format declared under a download type, in order; likewise every option. The first declaration is
   taken over whole, so of ids it repeats itself only the first can ever be found.
   */
  function FormatsOf(ts: seq<TypeSpec>, id: Id): seq<FormatSpec> {
    if ts == [] then []
    else
      var last := ts[|ts| - 1];
      FormatsOf(ts[..|ts| - 1], id)
      + if last.id != id then [] else if id in TypeIds(ts[..|ts| - 1]) then last.formats else Heads(last.formats)
  }

  function OptionsOf(ts: seq<TypeSpec>, id: Id): seq<OptionSpec> {
    if ts == [] then []
    else
      var last := ts[|ts| - 1];
      OptionsOf(ts[..|ts| - 1], id)
      + if last.id != id then [] else if id in TypeIds(ts[..|ts| - 1]) then last.options else OptionHeads(last.options)
  }

  function FirstType(ts: seq<TypeSpec>, id: Id): Option<TypeSpec> {
    if ts == [] then None
    else
      var earlier := FirstType(ts[..|ts| - 1], id);
      if earlier.Some? then earlier
      else if ts[|ts| - 1].id == id then Some(ts[|ts| - 1])
      else None
  }

  ghost predicate MergesType(t: TypeSpec, ts: seq<TypeSpec>) {
    && Merges(t.formats, FormatsOf(ts, t.id))
    && MergesOptions(t.options, OptionsOf(ts, t.id))
    && var first := FirstType(ts, t.id);
       first.Some? && t.title == first.value.title && t.defaultFormat == first.value.defaultFormat
  }

  /** A download type as a search sees it. */
  function Tidy(t: TypeSpec): TypeSpec {
    t.(formats := Heads(t.formats), options := OptionHeads(t.options))
  }

  ghost predicate MergesTypes(merged: seq<TypeSpec>, ts: seq<TypeSpec>) {
    && TypeIds(merged) == Slots(TypeIds(ts))
    && forall k :: 0 <= k < |merged| ==> MergesType(Tidy(merged[k]), ts)
  }

  lemma {:induction false} UndeclaredType(ts: seq<TypeSpec>, id: Id)
    requires id !in TypeIds(ts)
    ensures FormatsOf(ts, id) == [] && OptionsOf(ts, id) == [] && FirstType(ts, id) == None
  {
    if ts != [] {
      var earlier := ts[..|ts| - 1];
      assert TypeIds(ts) == TypeIds(earlier) + [ts[|ts| - 1].id];
      UndeclaredType(earlier, id);
    }
  }

  lemma AnotherType(ts: seq<TypeSpec>, t: TypeSpec, merged: TypeSpec)
    requires MergesType(merged, ts) && merged.id != t.id
    ensures MergesType(merged, ts + [t])
  {
    assert (ts + [t])[..|ts|] == ts;
    assert FormatsOf(ts, merged.id) + [] == FormatsOf(ts, merged.id);
    assert OptionsOf(ts, merged.id) + [] == OptionsOf(ts, merged.id);
  }

  lemma SameType(ts: seq<TypeSpec>, t: TypeSpec, merged: TypeSpec)
    requires MergesType(Tidy(merged), ts) && merged.id == t.id && t.id in TypeIds(ts)
    ensures MergesType(Tidy(Extend(merged, t)), ts + [t])
  {
    assert (ts + [t])[..|ts|] == ts;
    AddAllToHeads(merged.formats, t.formats);
    AddAllToOptionHeads(merged.options, t.options);
    AddFormatsMerges(Heads(merged.formats), FormatsOf(ts, t.id), t.formats);
    AddOptionsMerges(OptionHeads(merged.options), OptionsOf(ts, t.id), t.options);
  }

  lemma NewType(ts: seq<TypeSpec>, t: TypeSpec)
    requires t.id !in TypeIds(ts)
    ensures MergesType(Tidy(t), ts + [t])
  {
    assert (ts + [t])[..|ts|] == ts;
    UndeclaredType(ts, t.id);
    HeadsKeepIds(t.formats);
    OptionHeadsKeepIds(t.options);
    UniqueIsMerged(Heads(t.formats));
    UniqueOptionsAreMerged(OptionHeads(t.options));
    assert [] + Heads(t.formats) == Heads(t.formats) && [] + OptionHeads(t.options) == OptionHeads(t.options);
  }

  lemma TypeIsFound(merged: seq<TypeSpec>, id: Id)
    ensures FindType(merged, id) < |merged| <==> id in TypeIds(merged)
  {
    if FindType(merged, id) < |merged| { assert TypeIds(merged)[FindType(merged, id)] == id; }
  }

  lemma SameIds(merged: seq<TypeSpec>, k: nat, t: TypeSpec)
    requires k < |merged| && merged[k].id == t.id
    ensures TypeIds(merged[k := t]) == TypeIds(merged)
  {
  }

  lemma IdsGrow(ts: seq<TypeSpec>, t: TypeSpec)
    ensures TypeIds(ts + [t]) == TypeIds(ts) + [t.id]
  {
  }

  lemma TypeIsSeen(merged: seq<TypeSpec>, ts: seq<TypeSpec>, id: Id)
    requires TypeIds(merged) == Slots(TypeIds(ts))
    ensures FindType(merged, id) < |merged| <==> id in TypeIds(ts)
  {
    SlotsMean(TypeIds(ts));
    TypeIsFound(merged, id);
  }

  lemma AddTypeIds(merged: seq<TypeSpec>, ts: seq<TypeSpec>, t: TypeSpec)
    requires TypeIds(merged) == Slots(TypeIds(ts))
    ensures TypeIds(AddType(merged, t)) == Slots(TypeIds(ts + [t]))
  {
    var k := FindType(merged, t.id);
    TypeIsSeen(merged, ts, t.id);
    IdsGrow(ts, t);
    SlotsGrow(TypeIds(ts), t.id);
    if k < |merged| {
      SameIds(merged, k, Extend(merged[k], t));
    } else {
      IdsGrow(merged, t);
    }
  }

  lemma OtherTypeId(merged: seq<TypeSpec>, ts: seq<TypeSpec>, t: TypeSpec, j: nat)
    requires TypeIds(merged) == Slots(TypeIds(ts)) && j < |merged| && j != FindType(merged, t.id)
    ensures merged[j].id != t.id
  {
    SlotsMean(TypeIds(ts));
    var k := FindType(merged, t.id);
    if k < |merged| { assert TypeIds(merged)[j] != TypeIds(merged)[k]; }
  }

  lemma AddTypeMerges(merged: seq<TypeSpec>, ts: seq<TypeSpec>, t: TypeSpec)
    requires MergesTypes(merged, ts)
    ensures MergesTypes(AddType(merged, t), ts + [t])
  {
    var next, k := AddType(merged, t), FindType(merged, t.id);
    AddTypeIds(merged, ts, t);
    TypeIsSeen(merged, ts, t.id);
    forall j | 0 <= j < |next|
      ensures MergesType(Tidy(next[j]), ts + [t])
    {
      if j != k {
        OtherTypeId(merged, ts, t, j);
        AnotherType(ts, t, Tidy(merged[j]));
      } else if k < |merged| {
        SameType(ts, t, merged[k]);
      } else {
        NewType(ts, t);
      }
    }
  }

  /** The program's fold is the merge: a search finds every id, in the slot of its first declaration. */
  lemma {:induction false} FoldIsMerge(ts: seq<TypeSpec>)
    ensures MergesTypes(AddTypes([], ts), ts)
  {
    if ts != [] {
      FoldIsMerge(ts[..|ts| - 1]);
      AddTypeMerges(AddTypes([], ts[..|ts| - 1]), ts[..|ts| - 1], ts[|ts| - 1]);
      assert ts == ts[..|ts| - 1] + [ts[|ts| - 1]];
    }
  }

  /** The type repeats format ids exactly where its first declaration does. */
  ghost predicate RepeatsAlike(t: TypeSpec, ts: seq<TypeSpec>) {
    var first := FirstType(ts, t.id);
    first.Some? && (Distinct(FormatIds(t.formats)) <==> Distinct(FormatIds(first.value.formats)))
  }

  lemma LaterTypeIsNotFirst(ts: seq<TypeSpec>, t: TypeSpec, id: Id)
    ensures FirstType(ts + [t], id) ==
            if FirstType(ts, id).Some? then FirstType(ts, id) else if t.id == id then Some(t) else None
  {
    assert (ts + [t])[..|ts|] == ts;
  }

  lemma AddKeepsRepeats(merged: seq<TypeSpec>, ts: seq<TypeSpec>, t: TypeSpec, j: nat)
    requires TypeIds(merged) == Slots(TypeIds(ts)) && j < |AddType(merged, t)|
    requires j < |merged| ==> RepeatsAlike(merged[j], ts)
    ensures RepeatsAlike(AddType(merged, t)[j], ts + [t])
  {
    TypeIsSeen(merged, ts, t.id);
    if j < |merged| {
      LaterTypeIsNotFirst(ts, t, merged[j].id);
      AddingRepeatsNothing(merged[j].formats, t.formats);
    } else {
      LaterTypeIsNotFirst(ts, t, t.id);
      UndeclaredType(ts, t.id);
    }
  }

  /** A merged list names each id once exactly when the first declaration of its type does. */
  lemma {:induction false} FoldRepeatsOnlyTheFirst(ts: seq<TypeSpec>, j: nat)
    requires j < |AddTypes([], ts)|
    ensures RepeatsAlike(AddTypes([], ts)[j], ts)
  {
    var earlier, t := ts[..|ts| - 1], ts[|ts| - 1];
    assert ts == earlier + [t];
    var merged := AddTypes([], earlier);
    FoldListsTypes(earlier);
    if j < |merged| { FoldRepeatsOnlyTheFirst(earlier, j); }
    AddKeepsRepeats(merged, earlier, t, j);
  }

  lemma FoldListsTypes(ts: seq<TypeSpec>)
    ensures TypeIds(AddTypes([], ts)) == Slots(TypeIds(ts))
  {
    FoldIsMerge(ts);
  }

  // -- what a picker sees --------------------------------------------------------------------------

  function Lookup(types: seq<TypeSpec>, t: Id, f: Id): Option<FormatSpec> {
    var k := FindType(types, t);
    if k == |types| then None
    else
      var j := FindFormat(types[k].formats, f);
      if j == |types[k].formats| then None else Some(types[k].formats[j])
  }

  /**
   Looking an id up in the merged catalog gives the first real declaration of it, or the first
   placeholder where there is no real one, and nothing exactly where no provider declares it.
   */
  lemma LookupIsOwner(ts: seq<TypeSpec>, t: Id, f: Id)
    ensures Lookup(AddTypes([], ts), t, f) == Owner(FormatsOf(ts, t), f)
  {
    var merged := AddTypes([], ts);
    FoldIsMerge(ts);
    SlotsMean(TypeIds(ts));
    var k := FindType(merged, t);
    if k == |merged| {
      assert forall j :: 0 <= j < |merged| ==> TypeIds(merged)[j] != t;
      UndeclaredType(ts, t);
    } else {
      HeadIsFound(merged[k].formats, f);
      FindIsOwner(Heads(merged[k].formats), FormatsOf(ts, t), f);
      HeadIsFound(Heads(merged[k].formats), f);
    }
  }

  lemma Associates(a: seq<TypeSpec>, b: seq<TypeSpec>, c: seq<TypeSpec>)
    ensures a + (b + c) == a + b + c
  {
  }

  lemma {:induction false} DeclaredConcatenates(a: seq<Provided>, b: seq<Provided>)
    ensures Declared(a + b) == Declared(a) + Declared(b)
  {
    if b == [] {
      assert a + b == a;
    } else {
      var init, last := b[..|b| - 1], b[|b| - 1].types;
      DeclaredConcatenates(a, init);
      assert (a + b)[..|a + b| - 1] == a + init;
      Associates(Declared(a), Declared(init), last);
    }
  }

  lemma {:induction false} FormatsOfGrow(a: seq<TypeSpec>, b: seq<TypeSpec>, id: Id)
    ensures FormatsOf(a, id) <= FormatsOf(a + b, id)
  {
    if b == [] {
      assert a + b == a;
    } else {
      FormatsOfGrow(a, b[..|b| - 1], id);
      assert (a + b)[..|a + b| - 1] == a + b[..|b| - 1];
    }
  }

  lemma {:induction false} FirstRealStays(fs: seq<FormatSpec>, more: seq<FormatSpec>, id: Id)
    requires fs <= more && FirstReal(fs, id).Some?
    ensures FirstReal(more, id) == FirstReal(fs, id)
  {
    if !(fs[0].id == id && !fs[0].advisory) {
      FirstRealStays(fs[1..], more[1..], id);
    }
  }

  /** Once some provider really declares a format, no provider registered later changes what a search finds. */
  lemma EarlierProviderWins(earlier: seq<Provided>, later: seq<Provided>, t: Id, f: Id)
    ensures var found := Lookup(AddTypes([], Declared(earlier)), t, f);
      FirstReal(FormatsOf(Declared(earlier), t), f).Some? ==>
      found.Some? && !found.value.advisory && Lookup(AddTypes([], Declared(earlier + later)), t, f) == found
  {
    var before, all := Declared(earlier), Declared(earlier + later);
    DeclaredConcatenates(earlier, later);
    LookupIsOwner(before, t, f);
    LookupIsOwner(all, t, f);
    if FirstReal(FormatsOf(before, t), f).Some? {
      FormatsOfGrow(before, Declared(later), t);
      FirstRealStays(FormatsOf(before, t), FormatsOf(all, t), f);
      FirstRealIsReal(FormatsOf(before, t), f);
    }
  }

  lemma {:induction false} FirstRealIsReal(fs: seq<FormatSpec>, id: Id)
    ensures FirstReal(fs, id).Some? ==> FirstReal(fs, id).value in fs && !FirstReal(fs, id).value.advisory
  {
    if fs != [] { FirstRealIsReal(fs[1..], id); }
  }

  lemma FindIsOwner(merged: seq<FormatSpec>, fs: seq<FormatSpec>, id: Id)
    requires Merges(merged, fs)
    ensures var k := FindFormat(merged, id);
      Owner(fs, id) == if k == |merged| then None else Some(merged[k])
  {
    SlotsMean(FormatIds(fs));
    FirstAppends(fs, FormatSpec(id, true, ""), id);
    if FindFormat(merged, id) == |merged| {
      assert forall j :: 0 <= j < |merged| ==> FormatIds(merged)[j] != id;
    }
  }

  predicate DefaultIsListed(t: TypeSpec) { t.defaultFormat in FormatIds(t.formats) }

  lemma IdsConcat(a: seq<FormatSpec>, b: seq<FormatSpec>)
    ensures FormatIds(a + b) == FormatIds(a) + FormatIds(b)
  {
  }

  lemma {:induction false} FirstTypeIsDeclared(ts: seq<TypeSpec>, id: Id)
    requires FirstType(ts, id).Some?
    ensures var t := FirstType(ts, id).value;
      t in ts && t.id == id && FormatIds(Heads(t.formats)) <= FormatIds(FormatsOf(ts, id))
  {
    var earlier, last := ts[..|ts| - 1], ts[|ts| - 1];
    if FirstType(earlier, id).Some? {
      FirstTypeIsDeclared(earlier, id);
      IdsConcat(FormatsOf(earlier, id), last.formats);
      assert FormatsOf(earlier, id) + [] == FormatsOf(earlier, id);
      TypeIsListed(earlier, FirstType(earlier, id).value);
    } else {
      NoFirstType(earlier, id);
      UndeclaredType(earlier, id);
      assert [] + Heads(last.formats) == Heads(last.formats);
    }
  }

  lemma TypeIsListed(ts: seq<TypeSpec>, t: TypeSpec)
    requires t in ts
    ensures t.id in TypeIds(ts)
  {
    var k :| 0 <= k < |ts| && ts[k] == t;
    assert TypeIds(ts)[k] == t.id;
  }

  lemma {:induction false} NoFirstType(ts: seq<TypeSpec>, id: Id)
    requires FirstType(ts, id).None?
    ensures id !in TypeIds(ts)
  {
    if ts != [] {
      NoFirstType(ts[..|ts| - 1], id);
      assert TypeIds(ts) == TypeIds(ts[..|ts| - 1]) + [ts[|ts| - 1].id];
    }
  }

  /** If every declared default names one of its formats, so does every merged one. */
  lemma DefaultsStayListed(ts: seq<TypeSpec>)
    requires forall t :: t in ts ==> DefaultIsListed(t)
    ensures forall t :: t in AddTypes([], ts) ==> DefaultIsListed(t)
  {
    FoldIsMerge(ts);
    forall t | t in AddTypes([], ts)
      ensures DefaultIsListed(t)
    {
      FirstTypeIsDeclared(ts, t.id);
      var first := FirstType(ts, t.id).value;
      HeadsKeepIds(first.formats);
      SlotsMean(FormatIds(FormatsOf(ts, t.id)));
      HeadsKeepIds(t.formats);
    }
  }

  // -- the loops ------------------------------------------------------------------------------------

  method MergeFormatsInto(acc: seq<FormatSpec>, fs: seq<FormatSpec>) returns (r: seq<FormatSpec>)
    ensures r == AddFormats(acc, fs)
  {
    r := acc;
    for i := 0 to |fs|
      invariant r == AddFormats(acc, fs[..i])
    {
      assert fs[..i + 1][..i] == fs[..i];
      var f, k := fs[i], FindFormat(r, fs[i].id);
      if k == |r| {
        r := r + [f];
      } else if r[k].advisory && !f.advisory {
        r := r[k := f];
      }
    }
    assert fs[..|fs|] == fs;
  }

  method MergeOptionsInto(acc: seq<OptionSpec>, os: seq<OptionSpec>) returns (r: seq<OptionSpec>)
    ensures r == AddOptions(acc, os)
  {
    r := acc;
    for i := 0 to |os|
      invariant r == AddOptions(acc, os[..i])
    {
      assert os[..i + 1][..i] == os[..i];
      if FindOption(r, os[i].id) == |r| {
        r := r + [os[i]];
      }
    }
    assert os[..|os|] == os;
  }

  lemma {:induction false} AddTypesConcat(acc: seq<TypeSpec>, a: seq<TypeSpec>, b: seq<TypeSpec>)
    ensures AddTypes(acc, a + b) == AddTypes(AddTypes(acc, a), b)
  {
    if b == [] {
      assert a + b == a;
    } else {
      assert (a + b)[..|a + b| - 1] == a + b[..|b| - 1];
      AddTypesConcat(acc, a, b[..|b| - 1]);
    }
  }

  /** Merges the catalogs in registration order. */
  method Merge(catalogs: seq<Provided>) returns (types: seq<TypeSpec>)
    ensures types == AddTypes([], Declared(catalogs))
  {
    types := [];
    for c := 0 to |catalogs|
      invariant types == AddTypes([], Declared(catalogs[..c]))
    {
      var ts := catalogs[c].types;
      ghost var before := types;
      for i := 0 to |ts|
        invariant types == AddTypes(before, ts[..i])
      {
        assert ts[..i + 1][..i] == ts[..i];
        var t, k := ts[i], FindType(types, ts[i].id);
        if k == |types| {
          types := types + [t];
        } else {
          var formats := MergeFormatsInto(types[k].formats, t.formats);
          var options := MergeOptionsInto(types[k].options, t.options);
          types := types[k := types[k].(formats := formats, options := options)];
        }
      }
      assert ts[..|ts|] == ts;
      AddTypesConcat([], Declared(catalogs[..c]), ts);
      assert catalogs[..c + 1][..c] == catalogs[..c];
    }
    assert catalogs[..|catalogs|] == catalogs;
  }
}
