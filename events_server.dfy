/** `src/lib/events.server.ts`: events loaded from the content directory,
    and the accessors built on them. Unlike products, inactive events are
    kept at load time. */
module EventsServer {
  import opened Wrappers
  import opened Seqs
  import opened Content
  import opened Events

  /** `{ ...data, content }`: the front-matter data with `content` set to
      the body, which wins over any `content` key of the front matter. */
  function Load(f: File<Event>): (r: Event)
    ensures r.content == Some(f.body)
    ensures r.(content := f.data.content) == f.data
  {
    f.data.(content := Some(f.body))
  }

  /** `getAllEventsServer`: one record per markdown file, in listing order;
      none when the directory is missing. */
  function GetAllEvents(dir: Option<seq<File<Event>>>): (r: seq<Event>)
    ensures dir.None? ==> r == []
    ensures |r| == |MarkdownFiles(dir)|
    ensures forall i :: 0 <= i < |r| ==> r[i] == Load(MarkdownFiles(dir)[i])
  {
    Map(MarkdownFiles(dir), Load)
  }

  /** A further file in the listing adds its record at the end exactly when
      its name ends in ".md". */
  lemma GetAllEventsAppend(files: seq<File<Event>>, f: File<Event>)
    ensures GetAllEvents(Some(files + [f])) ==
            if IsMarkdown(f) then GetAllEvents(Some(files)) + [Load(f)] else GetAllEvents(Some(files))
  {
    MarkdownFilesAppend(files, f);
  }

  /** Every record comes from a markdown file of the listing. */
  lemma EventsComeFromMarkdown(dir: Option<seq<File<Event>>>, e: Event)
    requires e in GetAllEvents(dir)
    ensures dir.Some? && exists f :: f in dir.value && IsMarkdown(f) && e == Load(f)
  {
    var r := GetAllEvents(dir);
    var i :| 0 <= i < |r| && r[i] == e;
    var f := MarkdownFiles(dir)[i];
    assert f in MarkdownFiles(dir);
  }

  function IsActive(e: Event): bool {
    e.isActive
  }

  /** `getActiveEventsServer`: exactly the active records. */
  function GetActiveEvents(dir: Option<seq<File<Event>>>): (r: seq<Event>)
    ensures forall i :: 0 <= i < |r| ==> r[i].isActive
    ensures forall e :: e in GetAllEvents(dir) && e.isActive ==> e in r
    ensures forall e :: e in r ==> e in GetAllEvents(dir)
    ensures forall e :: e in GetAllEvents(dir) ==>
      multiset(r)[e] == if e.isActive then multiset(GetAllEvents(dir))[e] else 0
  {
    FilterCounts(GetAllEvents(dir), IsActive);
    Filter(GetAllEvents(dir), IsActive)
  }

  /** The active events keep their order. */
  lemma ActiveEventsKeepOrder(dir: Option<seq<File<Event>>>)
    ensures IsSubsequence(GetActiveEvents(dir), GetAllEvents(dir))
  {
    FilterIsSubsequence(GetAllEvents(dir), IsActive);
  }

  function HasSlug(slug: string): Event -> bool {
    (e: Event) => e.slug == slug
  }

  /** `getEventBySlugServer`: the first record with the slug, active or
      not. */
  function GetEventBySlug(dir: Option<seq<File<Event>>>, slug: string): (r: Option<Event>)
    ensures r.Some? ==> r.value in GetAllEvents(dir) && r.value.slug == slug
    ensures r.None? <==> forall e :: e in GetAllEvents(dir) ==> e.slug != slug
  {
    Find(GetAllEvents(dir), HasSlug(slug))
  }

  /** The record found is the first one carrying the slug. */
  lemma EventBySlugIsFirst(dir: Option<seq<File<Event>>>, slug: string, i: int)
    requires 0 <= i < |GetAllEvents(dir)| && GetAllEvents(dir)[i].slug == slug
    ensures GetEventBySlug(dir, slug).Some?
    ensures exists j :: 0 <= j <= i && GetAllEvents(dir)[j] == GetEventBySlug(dir, slug).value &&
                        forall k :: 0 <= k < j ==> GetAllEvents(dir)[k].slug != slug
  {
    var all := GetAllEvents(dir);
    var j := FindIsFirst(all, HasSlug(slug), i);
    assert all[j] == GetEventBySlug(dir, slug).value;
    assert forall k :: 0 <= k < j ==> all[k].slug != slug by {
      forall k | 0 <= k < j ensures all[k].slug != slug { assert !HasSlug(slug)(all[k]); }
    }
  }

  /** `getAllEventSlugsServer`: the slugs of all records, in order. */
  function GetAllEventSlugs(dir: Option<seq<File<Event>>>): (r: seq<string>)
    ensures |r| == |GetAllEvents(dir)|
    ensures forall i :: 0 <= i < |r| ==> r[i] == GetAllEvents(dir)[i].slug
  {
    Map(GetAllEvents(dir), (e: Event) => e.slug)
  }

  /** A slug is listed iff looking it up finds an event. */
  lemma SlugListedIffFound(dir: Option<seq<File<Event>>>, slug: string)
    ensures slug in GetAllEventSlugs(dir) <==> GetEventBySlug(dir, slug).Some?
  {
    var all, slugs := GetAllEvents(dir), GetAllEventSlugs(dir);
    if slug in slugs {
      var i :| 0 <= i < |slugs| && slugs[i] == slug;
      assert all[i] in all;
    }
    if GetEventBySlug(dir, slug).Some? {
      var e := GetEventBySlug(dir, slug).value;
      var i :| 0 <= i < |all| && all[i] == e;
      assert slugs[i] == slug;
    }
  }
}
