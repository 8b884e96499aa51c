/** The registry of attribute-value documentation: for each attribute folder (such as
    `hx-swap`) the list of its values (such as `innerHTML`), each with a markdown file that
    is rendered the first time its tooltip is asked for. */
module AttributeTooltipsProvider {
  import opened Text
  import opened Outcomes
  import opened Adornments
  import opened FileSystem
  import opened ContainerElementHelper

  /** One value of an attribute: its keyword and the markdown its `Lazy` cell renders. */
  datatype Entry = Entry(key: string, markdown: string)

  /** The folders the constructor skips: the one holding the attribute pages themselves. */
  predicate Skipped(folder: Folder) {
    EndsWithIgnoreCase(folder.name, "attributes")
  }

  /** The entries of a folder: its `*.md` files, in listing order. */
  function Entries(files: seq<File>): (r: seq<Entry>)
    ensures |r| <= |files|
    ensures |r| == |files| <==> forall j :: 0 <= j < |files| ==> EndsWithIgnoreCase(files[j].name, ".md")
  {
    if files == [] then []
    else
      var init := Entries(files[..|files| - 1]);
      var file := files[|files| - 1];
      if EndsWithIgnoreCase(file.name, ".md") then init + [Entry(FileStem(file.name), file.text)] else init
  }

  /** The dictionary the constructor builds from the folders, in listing order: every
      folder not skipped is keyed by its name without extension, and when two folders share
      that key the first one stays (`TryAdd`). */
  function Registry(folders: seq<Folder>): map<string, seq<Entry>> {
    if folders == [] then map[]
    else
      var m := Registry(folders[..|folders| - 1]);
      var folder := folders[|folders| - 1];
      if Skipped(folder) || FileStem(folder.name) in m then m
      else m[FileStem(folder.name) := Entries(folder.files)]
  }

  /** The first entry of `list` whose keyword is `key`: `FirstOrDefault`. */
  function FirstWithKey(list: seq<Entry>, key: string): (r: Option<nat>)
    ensures r.None? <==> forall i :: 0 <= i < |list| ==> list[i].key != key
    ensures r.Some? ==> r.value < |list| && list[r.value].key == key
    ensures r.Some? ==> forall i :: 0 <= i < r.value ==> list[i].key != key
  {
    if list == [] then None
    else if list[0].key == key then Some(0)
    else
      match FirstWithKey(list[1..], key)
      case None => None
      case Some(i) => Some(i + 1)
  }

  /** The keywords of a list, in order. */
  function Keys(list: seq<Entry>): (r: seq<string>)
    ensures |r| == |list| && forall i :: 0 <= i < |list| ==> r[i] == list[i].key
  {
    seq(|list|, i requires 0 <= i < |list| => list[i].key)
  }

  predicate NoDuplicates<T(==)>(s: seq<T>) {
    forall i, j :: 0 <= i < j < |s| ==> s[i] != s[j]
  }

  class AttributeToolTipsProvider {
    /** `_cachedDictionary`, written only by the constructor. */
    const table: map<string, seq<Entry>>
    /** What forcing a cell does with its markdown: the factory every `Lazy` cell holds. */
    const render: string -> Outcome<Node>
    /** The `Lazy` cells that have been forced, by attribute and position in its list. */
    var forced: map<(string, nat), Node>
    /** The cells forced so far, in order. */
    ghost var rendered: seq<(string, nat)>

    /** `n` is the rendering of the entry at `cell`. */
    ghost predicate Holds(cell: (string, nat), n: Node) {
      && cell.0 in table && cell.1 < |table[cell.0]|
      && render(table[cell.0][cell.1].markdown).Returns?
      && render(table[cell.0][cell.1].markdown).value == n
    }

    /** Every forced cell holds the rendering of its entry, and each was forced once. */
    ghost predicate Valid()
      reads this
    {
      && (forall c :: c in forced ==> Holds(c, forced[c]))
      && NoDuplicates(rendered)
      && (forall c :: c in rendered <==> c in forced)
    }

    constructor(folders: seq<Folder>)
      ensures table == Registry(folders) && render == RichContent
      ensures forced == map[] && rendered == []
      ensures Valid()
    {
      var dictionary: map<string, seq<Entry>> := map[];
      var i := 0;
      while i < |folders|
        invariant i <= |folders|
        invariant dictionary == Registry(folders[..i])
      {
        var folder := folders[i];
        assert folders[..i + 1][..i] == folders[..i];
        if !EndsWithIgnoreCase(folder.name, "attributes") {
          var directoryName := FileStem(folder.name);
          var items := ReadEntries(folder.files);
          if directoryName !in dictionary {
            dictionary := dictionary[directoryName := items];
          }
        }
        i := i + 1;
      }
      assert folders[..|folders|] == folders;
      table := dictionary;
      render := RichContent;
      forced := map[];
      rendered := [];
    }

    /** `GetKeywords(key)`: the keywords of an attribute in registry order, or null. */
    function GetKeywords(key: string): (r: Option<seq<string>>)
      ensures r.Some? <==> key in table
      ensures r.Some? ==> |r.value| == |table[key]|
      ensures r.Some? ==> forall i :: 0 <= i < |r.value| ==> r.value[i] == table[key][i].key
    {
      if key in table then Some(Keys(table[key])) else None
    }

    /** `TryGetValue(attribute, key, out element)`. An unknown attribute answers false. A
        known attribute whose list has no entry for `key` dereferences a missing `Lazy`
        cell and throws. Otherwise the first matching entry's cell is forced, at most once,
        and its rendering returned. */
    method TryGetValue(attribute: string, key: string) returns (r: Outcome<Option<Node>>)
      requires Valid()
      modifies this
      ensures Valid()
      ensures attribute !in table ==> r == Returns(None)
      ensures attribute in table && FirstWithKey(table[attribute], key).None? ==>
        r == Throws(NullReference)
      ensures attribute in table && FirstWithKey(table[attribute], key).Some? ==>
        var cell := (attribute, FirstWithKey(table[attribute], key).value);
        var doc := render(table[attribute][cell.1].markdown);
        && (cell in old(forced) ==> r == Returns(Some(old(forced)[cell])) && forced == old(forced))
        && (cell !in old(forced) && doc.Returns? ==>
              r == Returns(Some(doc.value)) && forced == old(forced)[cell := doc.value] &&
              rendered == old(rendered) + [cell])
        && (cell !in old(forced) && !doc.Returns? ==>
              r.Throws? == doc.Throws? && r.Diverges? == doc.Diverges? && (r.Throws? ==> r.error == doc.error))
      ensures !(r.Returns? && r.value.Some?) ==> forced == old(forced) && rendered == old(rendered)
      ensures r.Returns? && r.value.Some? ==>
        attribute in table && FirstWithKey(table[attribute], key).Some? &&
        Holds((attribute, FirstWithKey(table[attribute], key).value), r.value.value)
    {
      if attribute !in table {
        return Returns(None);
      }
      var list := table[attribute];
      var first := FirstWithKey(list, key);
      if first.None? {
        return Throws(NullReference);
      }
      var cell := (attribute, first.value);
      if cell in forced {
        return Returns(Some(forced[cell]));
      }
      match render(list[first.value].markdown) {
        case Returns(element) =>
          forced := forced[cell := element];
          rendered := rendered + [cell];
          return Returns(Some(element));
        case Throws(e) =>
          return Throws(e);
        case Diverges =>
          return Diverges;
      }
    }
  }

  /** The `*.md` files of a folder as entries: the constructor's inner loop. */
  method ReadEntries(files: seq<File>) returns (items: seq<Entry>)
    ensures items == Entries(files)
  {
    items := [];
    var j := 0;
    while j < |files|
      invariant j <= |files|
      invariant items == Entries(files[..j])
    {
      var file := files[j];
      assert files[..j + 1][..j] == files[..j];
      if EndsWithIgnoreCase(file.name, ".md") {
        items := items + [Entry(FileStem(file.name), file.text)];
      }
      j := j + 1;
    }
    assert files[..|files|] == files;
  }

  /** Every known attribute comes from a folder that is not skipped and carries its name. */
  lemma {:induction false} RegistryKeySource(folders: seq<Folder>, name: string) returns (i: nat)
    requires name in Registry(folders)
    ensures i < |folders| && !Skipped(folders[i]) && FileStem(folders[i].name) == name
  {
    var init := folders[..|folders| - 1];
    if name in Registry(init) {
      i := RegistryKeySource(init, name);
      assert folders[i] == init[i];
    } else {
      i := |folders| - 1;
    }
  }

  /** The first folder of a name wins: later folders of the same name do not replace it. */
  lemma {:induction false} RegistryFirstWins(folders: seq<Folder>, i: nat)
    requires i < |folders| && !Skipped(folders[i])
    requires forall j :: 0 <= j < i && !Skipped(folders[j]) ==> FileStem(folders[j].name) != FileStem(folders[i].name)
    ensures FileStem(folders[i].name) in Registry(folders)
    ensures Registry(folders)[FileStem(folders[i].name)] == Entries(folders[i].files)
  {
    var init := folders[..|folders| - 1];
    var name := FileStem(folders[i].name);
    if i == |folders| - 1 {
      if name in Registry(init) {
        var j := RegistryKeySource(init, name);
        assert false;
      }
    } else {
      assert init[i] == folders[i];
      forall j | 0 <= j < i && !Skipped(init[j])
        ensures FileStem(init[j].name) != FileStem(init[i].name)
      {
        assert init[j] == folders[j];
      }
      RegistryFirstWins(init, i);
    }
  }

  /** Every entry comes from a markdown file of its folder, keyed by the file's name
      without extension. */
  lemma {:induction false} EntrySource(files: seq<File>, k: nat) returns (j: nat)
    requires k < |Entries(files)|
    ensures j < |files| && EndsWithIgnoreCase(files[j].name, ".md")
    ensures Entries(files)[k] == Entry(FileStem(files[j].name), files[j].text)
  {
    var init := files[..|files| - 1];
    if k < |Entries(init)| {
      j := EntrySource(init, k);
      assert files[j] == init[j];
    } else {
      j := |files| - 1;
    }
  }

  /** Listing order is kept: the entries of two runs of files are those of the first run
      followed by those of the second. */
  lemma {:induction false} EntriesAppend(a: seq<File>, b: seq<File>)
    ensures Entries(a + b) == Entries(a) + Entries(b)
    decreases |b|
  {
    if b == [] {
      assert a + b == a;
    } else {
      var init := b[..|b| - 1];
      assert (a + b)[..|a + b| - 1] == a + init;
      assert (a + b)[|a + b| - 1] == b[|b| - 1];
      EntriesAppend(a, init);
    }
  }

  /** Every markdown file of a folder has an entry. */
  lemma {:induction false} MarkdownHasEntry(files: seq<File>, j: nat)
    requires j < |files| && EndsWithIgnoreCase(files[j].name, ".md")
    ensures Entry(FileStem(files[j].name), files[j].text) in Entries(files)
  {
    var init := files[..|files| - 1];
    if j < |init| {
      assert init[j] == files[j];
      MarkdownHasEntry(init, j);
    }
  }

  /** The keywords offered for a folder's attribute are the stems of its markdown files. */
  lemma KeywordsOfFolder(p: AttributeToolTipsProvider, folders: seq<Folder>, i: nat, k: nat) returns (j: nat)
    requires p.table == Registry(folders)
    requires i < |folders| && !Skipped(folders[i])
    requires forall j :: 0 <= j < i && !Skipped(folders[j]) ==> FileStem(folders[j].name) != FileStem(folders[i].name)
    requires k < |Entries(folders[i].files)|
    ensures p.GetKeywords(FileStem(folders[i].name)).Some?
    ensures k < |p.GetKeywords(FileStem(folders[i].name)).value|
    ensures j < |folders[i].files| && EndsWithIgnoreCase(folders[i].files[j].name, ".md")
    ensures p.GetKeywords(FileStem(folders[i].name)).value[k] == FileStem(folders[i].files[j].name)
  {
    RegistryFirstWins(folders, i);
    j := EntrySource(folders[i].files, k);
  }
}
