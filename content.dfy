/** The content directory that `src/lib/events.server.ts` and
    `src/lib/products.server.ts` read. Reading the files and parsing their
    front matter is not modelled: a directory is given as the list of its
    files in listing order, each with the front-matter data already parsed
    and the body text, or `None` when the directory does not exist. */
module Content {
  import opened Wrappers
  import opened Text
  import opened Seqs

  /** One file: its name, its front-matter data and its body. */
  datatype File<T> = File(name: string, data: T, body: string)

  predicate IsMarkdown<T>(f: File<T>) {
    EndsWith(f.name, ".md")
  }

  /** The markdown files of a directory, in listing order; none when the
      directory is missing. */
  function MarkdownFiles<T>(dir: Option<seq<File<T>>>): (r: seq<File<T>>)
    ensures dir.None? ==> r == []
    ensures forall i :: 0 <= i < |r| ==> IsMarkdown(r[i])
    ensures dir.Some? ==> forall f :: f in dir.value && IsMarkdown(f) ==> f in r
    ensures dir.Some? ==> forall f :: f in r ==> f in dir.value
  {
    match dir
    case None => []
    case Some(files) => Filter(files, IsMarkdown)
  }

  /** Adding a file to the listing adds it to the markdown files exactly
      when its name ends in ".md". */
  lemma MarkdownFilesAppend<T>(files: seq<File<T>>, f: File<T>)
    ensures MarkdownFiles(Some(files + [f])) ==
            if IsMarkdown(f) then MarkdownFiles(Some(files)) + [f] else MarkdownFiles(Some(files))
  {
    FilterAppend(files, [f], IsMarkdown);
    assert [f][1..] == [];
  }
}
