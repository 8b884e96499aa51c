/** The part of the file system the documentation registries read: the markdown files
    shipped next to the extension. A directory listing is a sequence in enumeration order,
    and reading a file is a lookup in that listing. */
module FileSystem {
  import opened Outcomes

  datatype File = File(name: string, text: string)

  /** A sub-directory of the documentation folder and the files directly in it. */
  datatype Folder = Folder(name: string, files: seq<File>)

  /** `File.ReadAllText` of the file called `name` in a directory listing: the text of the
      first file of that name, or `FileNotFoundException` when there is none. */
  function ReadAllText(files: seq<File>, name: string): (r: Outcome<string>)
    ensures r.Throws? <==> forall i :: 0 <= i < |files| ==> files[i].name != name
    ensures r.Returns? ==>
      exists i :: 0 <= i < |files| && files[i] == File(name, r.value) && forall j :: 0 <= j < i ==> files[j].name != name
    ensures !r.Diverges?
  {
    if files == [] then Throws(FileNotFound)
    else if files[0].name == name then Returns(files[0].text)
    else
      var r := ReadAllText(files[1..], name);
      assert forall i :: 1 <= i < |files| ==> files[i] == files[1..][i - 1];
      r
  }
}
