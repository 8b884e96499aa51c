/** The registry of `hx-` attribute documentation: a fixed keyword list taken from the
    file names of the attributes folder, and a cache that renders each keyword's markdown
    file the first time it is asked for. */
module TooltipsProvider {
  import opened Text
  import opened Outcomes
  import opened Adornments
  import opened FileSystem
  import opened ContainerElementHelper

  /** The online reference page of an attribute. */
  function Url(key: string): (url: string)
    ensures StartsWith(url, "https://htmx.org/attributes/") && EndsWith(url, "/")
    ensures |url| == |key| + 29 && url[28..|url| - 1] == key
  {
    "https://htmx.org/attributes/" + key + "/"
  }

  /** The file names of a listing without their extensions, in listing order. */
  function Stems(files: seq<File>): (r: seq<string>)
    ensures |r| == |files| && forall i :: 0 <= i < |files| ==> r[i] == FileStem(files[i].name)
  {
    seq(|files|, i requires 0 <= i < |files| => FileStem(files[i].name))
  }

  predicate NoDuplicates<T(==)>(s: seq<T>) {
    forall i, j :: 0 <= i < j < |s| ==> s[i] != s[j]
  }

  class ToolTipsProvider {
    /** The listing of the attributes folder, read once when the provider is created. */
    const files: seq<File>
    /** `Keywords`: the stems of every file in that folder, in listing order. */
    const keywords: seq<string>
    /** What the cache stores for a description, without and with the reference link:
        the two overloads of `CreateRichContent`. */
    const richContent: string -> Outcome<Node>
    const richContentWithLink: (string, string) -> Outcome<Node>
    /** `_cachedDictionary`. */
    var cache: map<string, Node>
    /** The keys rendered so far, in order. */
    ghost var rendered: seq<string>

    /** The tooltip for `key`: its markdown file, with or without the reference link. */
    function Render(key: string, useLink: bool): Outcome<Node> {
      match ReadAllText(files, key + ".md")
      case Returns(markdown) =>
        if useLink then richContentWithLink(markdown, Url(key)) else richContent(markdown)
      case Throws(e) => Throws(e)
      case Diverges => Diverges
    }

    /** `n` is what one of the two renderings of `key` produced. */
    ghost predicate RenderedFrom(key: string, n: Node) {
      || (Render(key, true).Returns? && Render(key, true).value == n)
      || (Render(key, false).Returns? && Render(key, false).value == n)
    }

    /** Both renderings of a description, when they succeed, are containers. */
    ghost predicate RendersContainers() {
      && (forall m :: richContent(m).Returns? ==> richContent(m).value.Container?)
      && (forall m, l :: richContentWithLink(m, l).Returns? ==> richContentWithLink(m, l).value.Container?)
    }

    /** Only keywords are cached, each entry is a rendering of its key, and every cached
        key was rendered exactly once. */
    ghost predicate Valid()
      reads this
    {
      && RendersContainers()
      && (forall k :: k in cache ==> k in keywords && RenderedFrom(k, cache[k]))
      && NoDuplicates(rendered)
      && (forall k :: k in rendered <==> k in cache)
    }

    constructor(files: seq<File>)
      ensures this.files == files && keywords == Stems(files)
      ensures richContent == RichContent && richContentWithLink == RichContentWithLink
      ensures cache == map[] && rendered == []
      ensures Valid()
    {
      this.files := files;
      keywords := Stems(files);
      richContent, richContentWithLink := RichContent, RichContentWithLink;
      cache := map[];
      rendered := [];
    }

    /** `TryGetValue(key, out element, useLink)`, with `true` and the element as
        `Returns(Some(element))` and `false` as `Returns(None)`. A cached key is answered
        from the cache whatever `useLink` is; a keyword not yet cached is rendered, cached
        and returned; any other key leaves the cache alone. */
    method TryGetValue(key: string, useLink: bool) returns (r: Outcome<Option<Node>>)
      requires Valid()
      modifies this
      ensures Valid()
      ensures key in old(cache) ==>
        r == Returns(Some(old(cache)[key])) && cache == old(cache) && rendered == old(rendered)
      ensures key !in old(cache) && key !in keywords ==>
        r == Returns(None) && cache == old(cache) && rendered == old(rendered)
      ensures key !in old(cache) && key in keywords && Render(key, useLink).Returns? ==>
        && r == Returns(Some(Render(key, useLink).value))
        && cache == old(cache)[key := Render(key, useLink).value]
        && rendered == old(rendered) + [key]
      ensures key !in old(cache) && key in keywords && !Render(key, useLink).Returns? ==>
        && (r.Throws? <==> Render(key, useLink).Throws?)
        && (r.Throws? ==> r.error == Render(key, useLink).error)
        && r.Diverges? == Render(key, useLink).Diverges?
        && cache == old(cache) && rendered == old(rendered)
      ensures r.Returns? && r.value.Some? ==> key in keywords && r.value.value.Container?
    {
      if key in cache {
        return Returns(Some(cache[key]));
      }
      if key in keywords {
        var element := Render(key, useLink);
        match element {
          case Returns(n) =>
            cache := cache[key := n];
            rendered := rendered + [key];
            return Returns(Some(n));
          case Throws(e) =>
            return Throws(e);
          case Diverges =>
            return Diverges;
        }
      }
      return Returns(None);
    }
  }

  /** A folder listing whose files are all markdown files renders every keyword: the
      stems of the listing are exactly the keys that have a file to read. */
  lemma KeywordsHaveFiles(files: seq<File>, i: nat)
    requires i < |files| && EndsWith(files[i].name, ".md")
    requires forall j :: 0 <= j < i ==> files[j].name != files[i].name
    ensures ReadAllText(files, FileStem(files[i].name) + ".md") == Returns(files[i].text)
  {
    MarkdownStem(files[i].name);
    ReadAllTextFirst(files, i);
  }

  /** A markdown file's keyword, with `.md` appended again, is the file's name. */
  lemma MarkdownStem(name: string)
    requires EndsWith(name, ".md")
    ensures FileStem(name) + ".md" == name
  {
    var base := name[..|name| - 3];
    assert name == base + "." + "md" by {
      assert name[|name| - 3..] == ".md";
    }
    FileStemDropsExtension(base, "md");
  }

  lemma {:induction false} ReadAllTextFirst(files: seq<File>, i: nat)
    requires i < |files| && forall j :: 0 <= j < i ==> files[j].name != files[i].name
    ensures ReadAllText(files, files[i].name) == Returns(files[i].text)
  {
    if i > 0 {
      assert files[1..][i - 1] == files[i];
      ReadAllTextFirst(files[1..], i - 1);
    }
  }
}
