/** The logic of the top bar (client/src/components/top-bar.tsx): which note type and which
    cached query belong to the current page, the note a "create" submits (with one todo item
    per non-blank line for todo lists), and the URL a search pushes. */
module TopBar {
  import opened Schema
  import opened UriComponent

  /** `getNoteTypeForPath()`. */
  function NoteTypeForPath(location: string): (t: string)
    ensures IsNoteType(t)
    ensures location == "/todos" ==> t == "todo"
    ensures location == "/quick-notes" ==> t == "quick_note"
    ensures t == "note" <==> location != "/todos" && location != "/quick-notes"
  {
    if location == "/todos" then "todo"
    else if location == "/quick-notes" then "quick_note"
    else "note"
  }

  /** `getQueryKeyForCurrentView()`. */
  function QueryKeyForView(location: string): (k: string)
    ensures |k| >= 10 && k[..10] == "/api/notes"
  {
    if location == "/todos" then "/api/notes?type=todo"
    else if location == "/quick-notes" then "/api/notes?type=quick_note"
    else "/api/notes"
  }

  /** The cache key refreshed after a create or a search is the list the new note's type
      belongs to: the plain list for ordinary notes, filtered by type otherwise. */
  lemma QueryKeyFollowsNoteType(location: string)
    ensures var t := NoteTypeForPath(location);
            QueryKeyForView(location) == if t == "note" then "/api/notes" else "/api/notes?type=" + t
  {
  }

  /** White space and line terminators as `String.prototype.trim` removes them. */
  predicate IsSpace(c: char) {
    var n := c as int;
    n == 0x09 || n == 0x0A || n == 0x0B || n == 0x0C || n == 0x0D || n == 0x20 || n == 0xA0 ||
    n == 0x1680 || (0x2000 <= n <= 0x200A) || n == 0x2028 || n == 0x2029 || n == 0x202F ||
    n == 0x205F || n == 0x3000 || n == 0xFEFF
  }

  predicate Blank(s: string) {
    forall i :: 0 <= i < |s| ==> IsSpace(s[i])
  }

  /** How many white-space characters `s` starts with. */
  function Lead(s: string): (n: nat)
    ensures n <= |s|
    ensures forall i :: 0 <= i < n ==> IsSpace(s[i])
    ensures n < |s| ==> !IsSpace(s[n])
  {
    if |s| > 0 && IsSpace(s[0]) then 1 + Lead(s[1..]) else 0
  }

  /** How many white-space characters `s` ends with. */
  function Trail(s: string): (n: nat)
    ensures n <= |s|
    ensures forall i :: |s| - n <= i < |s| ==> IsSpace(s[i])
    ensures n < |s| ==> !IsSpace(s[|s| - n - 1])
  {
    if |s| > 0 && IsSpace(s[|s| - 1]) then 1 + Trail(s[..|s| - 1]) else 0
  }

  /** `s.trim()`. */
  function Trim(s: string): (r: string)
    // what is left is the piece of `s` starting after its leading white space ...
    ensures Lead(s) + |r| <= |s| && forall k :: 0 <= k < |r| ==> r[k] == s[Lead(s) + k]
    // ... with no white space at either end ...
    ensures |r| > 0 ==> !IsSpace(r[0]) && !IsSpace(r[|r| - 1])
    // ... and nothing but white space was cut after it; it is empty exactly for a blank string
    ensures forall k :: Lead(s) + |r| <= k < |s| ==> IsSpace(s[k])
    ensures |r| == 0 <==> Blank(s)
  {
    TrimmedPiece(s);
    var a := s[Lead(s)..];
    a[..|a| - Trail(a)]
  }

  /** What is left between the leading and the trailing white space. */
  lemma TrimmedPiece(s: string)
    ensures var a := s[Lead(s)..];
            var r := a[..|a| - Trail(a)];
            Lead(s) + |r| <= |s| && (forall k :: 0 <= k < |r| ==> r[k] == s[Lead(s) + k]) &&
            (|r| > 0 ==> !IsSpace(r[0]) && !IsSpace(r[|r| - 1])) &&
            (forall k :: Lead(s) + |r| <= k < |s| ==> IsSpace(s[k])) &&
            (|r| == 0 <==> Blank(s))
  {
    var n := Lead(s);
    var a := s[n..];
    var m := Trail(a);
    var r := a[..|a| - m];
    forall k | n + |r| <= k < |s| ensures IsSpace(s[k]) {
      assert s[k] == a[k - n];
    }
    if |r| == 0 {
      assert Blank(s);
    } else {
      assert r[0] == s[n];
      assert r[|r| - 1] == a[|a| - m - 1];
    }
  }

  /** Trimming is idempotent. */
  lemma TrimIdempotent(s: string)
    ensures Trim(Trim(s)) == Trim(s)
  {
    var r := Trim(s);
    assert Lead(r) == 0;
    assert Trail(r) == 0;
    assert r[0..] == r && r[..|r|] == r;
  }

  /** A trimmed line is still one line. */
  lemma TrimKeepsOutChar(s: string, c: char)
    requires c !in s
    ensures c !in Trim(s)
  {
  }

  /** `s.split(sep)` for a one-character separator: always at least one part. */
  function Split(s: string, sep: char): (parts: seq<string>)
    ensures |parts| >= 1
    ensures forall i :: 0 <= i < |parts| ==> sep !in parts[i]
    ensures Join(parts, sep) == s
  {
    if |s| == 0 then [""]
    else
      var rest := Split(s[1..], sep);
      if s[0] == sep then
        assert Join([""] + rest, sep) == [sep] + Join(rest, sep);
        [""] + rest
      else
        JoinConsFirst(s[0], rest, sep);
        [[s[0]] + rest[0]] + rest[1..]
  }

  /** The inverse of `Split`: the parts with the separator between them. */
  function Join(parts: seq<string>, sep: char): string
    requires |parts| >= 1
  {
    if |parts| == 1 then parts[0] else parts[0] + [sep] + Join(parts[1..], sep)
  }

  lemma JoinConsFirst(c: char, parts: seq<string>, sep: char)
    requires |parts| >= 1
    ensures Join([[c] + parts[0]] + parts[1..], sep) == [c] + Join(parts, sep)
  {
    var ps := [[c] + parts[0]] + parts[1..];
    if |parts| > 1 {
      assert ps[1..] == parts[1..];
    }
  }

  /** The `'\n'`-separated pieces of a text are exactly its lines. */
  lemma {:induction false} SplitJoin(parts: seq<string>, sep: char)
    requires |parts| >= 1
    requires forall i :: 0 <= i < |parts| ==> sep !in parts[i]
    ensures Split(Join(parts, sep), sep) == parts
    decreases |parts|, |parts[0]|
  {
    var p0 := parts[0];
    if |p0| == 0 {
      if |parts| > 1 {
        SplitJoin(parts[1..], sep);
        assert Join(parts, sep) == [sep] + Join(parts[1..], sep);
        assert ([sep] + Join(parts[1..], sep))[1..] == Join(parts[1..], sep);
        assert [""] + parts[1..] == parts;
      }
    } else {
      var tail := [p0[1..]] + parts[1..];
      forall i | 0 <= i < |tail| ensures sep !in tail[i] {
        if i == 0 { assert forall x :: x in p0[1..] ==> x in p0; }
        else { assert tail[i] == parts[i]; }
      }
      SplitJoin(tail, sep);
      assert p0 == [p0[0]] + tail[0];
      JoinConsFirst(p0[0], tail, sep);
      assert [[p0[0]] + tail[0]] + tail[1..] == parts;
      assert Join(parts, sep)[1..] == Join(tail, sep);
    }
  }

  /** `{ content, isCompleted }` sent with a todo note. */
  datatype TodoItem = TodoItem(content: string, isCompleted: bool)

  /** `.filter(line => line.trim())`: the lines that are not blank, in order. */
  function NonBlank(lines: seq<string>): (kept: seq<string>)
    ensures |kept| <= |lines|
    ensures forall k :: 0 <= k < |kept| ==> !Blank(kept[k]) && kept[k] in lines
  {
    if |lines| == 0 then []
    else if Blank(lines[0]) then NonBlank(lines[1..])
    else [lines[0]] + NonBlank(lines[1..])
  }

  /** Filtering a concatenation filters each part: the kept lines stay in their order. */
  lemma {:induction false} NonBlankAppend(a: seq<string>, b: seq<string>)
    ensures NonBlank(a + b) == NonBlank(a) + NonBlank(b)
  {
    if |a| > 0 {
      NonBlankAppend(a[1..], b);
      assert (a + b)[0] == a[0] && (a + b)[1..] == a[1..] + b;
    } else {
      assert a + b == b;
    }
  }

  /** A single line is kept exactly when it is not blank. */
  lemma NonBlankOne(line: string)
    ensures NonBlank([line]) == if Blank(line) then [] else [line]
  {
    assert [line][1..] == [];
  }

  /** How many lines are not blank. */
  function CountNonBlank(lines: seq<string>): nat {
    if |lines| == 0 then 0 else (if Blank(lines[0]) then 0 else 1) + CountNonBlank(lines[1..])
  }

  lemma {:induction false} CountIsNonBlank(lines: seq<string>)
    ensures |NonBlank(lines)| == CountNonBlank(lines)
  {
    if |lines| > 0 {
      CountIsNonBlank(lines[1..]);
    }
  }

  /** The split/filter/map chain that builds `todoItems` from the note's content. */
  function TodoItems(content: string): (items: seq<TodoItem>)
    // one item per non-blank line, in order, holding the trimmed line, not completed
    ensures var lines := NonBlank(Split(content, '\n'));
            |items| == |lines| &&
            forall k :: 0 <= k < |items| ==> items[k] == TodoItem(Trim(lines[k]), false)
    ensures |items| == CountNonBlank(Split(content, '\n'))
    // every item is a single non-empty, already trimmed line
    ensures forall k :: 0 <= k < |items| ==>
              items[k].content != "" && '\n' !in items[k].content && Trim(items[k].content) == items[k].content
  {
    var lines := Split(content, '\n');
    CountIsNonBlank(lines);
    ItemsAreTrimmedLines(lines);
    ItemsOf(lines)
  }

  /** `.filter(...).map(line => ({ content: line.trim(), isCompleted: false }))`, fused. */
  function ItemsOf(lines: seq<string>): (items: seq<TodoItem>)
    ensures var kept := NonBlank(lines);
            |items| == |kept| && forall k :: 0 <= k < |items| ==> items[k] == TodoItem(Trim(kept[k]), false)
  {
    if |lines| == 0 then []
    else
      var rest := ItemsOf(lines[1..]);
      if Blank(lines[0]) then rest
      else
        var kept := NonBlank(lines);
        assert kept == [lines[0]] + NonBlank(lines[1..]);
        [TodoItem(Trim(kept[0]), false)] + rest
  }

  lemma ItemsAreTrimmedLines(lines: seq<string>)
    requires forall i :: 0 <= i < |lines| ==> '\n' !in lines[i]
    ensures var items := ItemsOf(lines);
            forall k :: 0 <= k < |items| ==>
              items[k].content != "" && '\n' !in items[k].content && Trim(items[k].content) == items[k].content
  {
    var items := ItemsOf(lines);
    var kept := NonBlank(lines);
    forall k | 0 <= k < |items|
      ensures items[k].content != "" && '\n' !in items[k].content && Trim(items[k].content) == items[k].content
    {
      TrimIdempotent(kept[k]);
      TrimKeepsOutChar(kept[k], '\n');
    }
  }

  /** The body `handleCreateNote` posts. */
  datatype NoteForm = NoteForm(title: string, content: string, noteType: string, todoItems: Option<seq<TodoItem>>)

  /** The note `handleCreateNote` submits, or `None` when the title check stops it. */
  function CreateNoteForm(title: string, content: string, location: string): (f: Option<NoteForm>)
    // a title that trims to nothing submits nothing
    ensures f.None? <==> Blank(title)
    // title and content go out as typed; the type follows the page
    ensures f.Some? ==> f.value.title == title && f.value.content == content &&
                        f.value.noteType == NoteTypeForPath(location)
    // todo items only for a todo note with some content, and then one per non-blank line
    ensures f.Some? ==> (f.value.todoItems.Some? <==> location == "/todos" && content != "")
    ensures f.Some? && f.value.todoItems.Some? ==> f.value.todoItems.value == TodoItems(content)
  {
    if Trim(title) == "" then None
    else
      var t := NoteTypeForPath(location);
      Some(NoteForm(title, content, t, if t == "todo" && content != "" then Some(TodoItems(content)) else None))
  }

  /** The title check of `CreateNoteForm` is the trim of the title, and past it the form is built
      from the page's note type. */
  lemma CreateNoteFormUnfolds(title: string, content: string, location: string)
    ensures (Trim(title) == "") == Blank(title)
    ensures !Blank(title) ==>
              var t := NoteTypeForPath(location);
              CreateNoteForm(title, content, location) ==
              Some(NoteForm(title, content, t, if t == "todo" && content != "" then Some(TodoItems(content)) else None))
  {
  }

  /** `location || "/"`. */
  function CurrentPath(location: string): (p: string)
    ensures |p| > 0
    ensures location != "" ==> p == location
    ensures location == "" ==> p == "/"
  {
    if location == "" then "/" else location
  }

  /** The URL `handleSearchSubmit` pushes. */
  function SearchUrl(location: string, query: string): (url: string)
    ensures var p := CurrentPath(location);
            |url| >= |p| && url[..|p|] == p &&
            (query == "" <==> |url| == |p|)
    // a non-empty query follows as one `search` parameter that reads back as the query
    ensures var p := CurrentPath(location);
            query != "" ==>
              |url| > |p| + 8 && url[|p|..|p| + 8] == "?search=" &&
              (forall i :: |p| + 8 <= i < |url| ==> Unreserved(url[i]) || url[i] == '%') &&
              Decode(url[|p| + 8..]) == Some(query)
  {
    var p := CurrentPath(location);
    if query == "" then p
    else
      var url := p + "?search=" + Encode(query);
      assert url[|p| + 8..] == Encode(query);
      DecodeEncode(query);
      url
  }

  /** The state the two handlers touch: the form fields they read, the browser history,
      the query-cache invalidations, the notes handed to `createNote` and the error toasts. */
  class TopBar {
    var location: string
    var searchQuery: string
    var noteTitle: string
    var noteContent: string
    var pushed: seq<string>
    var invalidated: seq<string>
    var submitted: seq<NoteForm>
    var toasts: seq<string>

    constructor (location: string)
      ensures this.location == location && searchQuery == "" && noteTitle == "" && noteContent == ""
      ensures pushed == [] && invalidated == [] && submitted == [] && toasts == []
    {
      this.location := location;
      searchQuery, noteTitle, noteContent := "", "", "";
      pushed, invalidated, submitted, toasts := [], [], [], [];
    }

    /** `handleCreateNote()`. */
    method HandleCreateNote()
      modifies this
      ensures Blank(old(noteTitle)) ==>
                toasts == old(toasts) + ["Title is required"] && submitted == old(submitted)
      ensures !Blank(old(noteTitle)) ==>
                toasts == old(toasts) &&
                submitted == old(submitted) + [CreateNoteForm(old(noteTitle), old(noteContent), old(location)).value]
      ensures location == old(location) && searchQuery == old(searchQuery) && noteTitle == old(noteTitle) &&
              noteContent == old(noteContent) && pushed == old(pushed) && invalidated == old(invalidated)
    {
      CreateNoteFormUnfolds(noteTitle, noteContent, location);
      if Trim(noteTitle) == "" {
        toasts := toasts + ["Title is required"];
        return;
      }
      var noteType := NoteTypeForPath(location);
      var items := if noteType == "todo" && noteContent != "" then Some(TodoItems(noteContent)) else None;
      var form := NoteForm(noteTitle, noteContent, noteType, items);
      submitted := submitted + [form];
    }

    /** `handleSearchSubmit(e)`. */
    method HandleSearchSubmit()
      modifies this
      ensures pushed == old(pushed) + [SearchUrl(location, searchQuery)]
      ensures invalidated == old(invalidated) + [QueryKeyForView(location)]
      ensures location == old(location) && searchQuery == old(searchQuery) && noteTitle == old(noteTitle) &&
              noteContent == old(noteContent) && submitted == old(submitted) && toasts == old(toasts)
    {
      var url := if location == "" then "/" else location;
      if searchQuery != "" {
        url := url + "?search=" + Encode(searchQuery);
      }
      pushed := pushed + [url];
      invalidated := invalidated + [QueryKeyForView(location)];
    }
  }
}
