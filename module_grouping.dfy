/**
 * The student view of a course's modules: the rows of `module LEFT JOIN module_content`
 * are folded into one entry per module number, each with its list of content items.
 */
module ModuleGrouping {
  import opened Common
  import opened Tables

  /** One joined row; `contentId` is NULL when the module has no content. */
  datatype JoinedRow = JoinedRow(
    moduleNumber: int, name: string, duration: string,
    contentId: Option<ContentId>, title: string, contentType: string, url: string)

  datatype ContentView = ContentView(contentId: ContentId, title: string, contentType: string, url: string)

  datatype ModuleView = ModuleView(moduleNumber: int, name: string, duration: string, content: seq<ContentView>)

  /** The content item a row contributes, when its content id is set. */
  function ContentItem(row: JoinedRow): seq<ContentView> {
    if row.contentId.Some? then [ContentView(row.contentId.value, row.title, row.contentType, row.url)] else []
  }

  /** The module numbers, each once, in the order of their first row. */
  function FirstSeen(rows: seq<JoinedRow>): seq<int> {
    if rows == [] then []
    else
      var before := FirstSeen(rows[..|rows| - 1]);
      var m := rows[|rows| - 1].moduleNumber;
      if m in before then before else before + [m]
  }

  /** The content items of module `m`, in row order. */
  function ContentOf(rows: seq<JoinedRow>, m: int): seq<ContentView> {
    if rows == [] then []
    else
      var last := rows[|rows| - 1];
      ContentOf(rows[..|rows| - 1], m) + (if last.moduleNumber == m then ContentItem(last) else [])
  }

  /** The first row of module `m`, which supplies the module's name and duration. */
  function HeaderRow(rows: seq<JoinedRow>, m: int): JoinedRow
    requires m in FirstSeen(rows)
  {
    var before := rows[..|rows| - 1];
    if m in FirstSeen(before) then HeaderRow(before, m) else rows[|rows| - 1]
  }

  function ModuleOf(rows: seq<JoinedRow>, m: int): ModuleView
    requires m in FirstSeen(rows)
  {
    var h := HeaderRow(rows, m);
    ModuleView(m, h.name, h.duration, ContentOf(rows, m))
  }

  /** The grouped modules, one per module number in first-seen order. */
  function Grouped(rows: seq<JoinedRow>): seq<ModuleView> {
    var keys := FirstSeen(rows);
    seq(|keys|, j requires 0 <= j < |keys| => ModuleOf(rows, keys[j]))
  }

  /**
   * The grouping loop of the student modules endpoint: a dictionary keyed by module
   * number whose insertion order is kept, and whose content lists grow row by row.
   */
  method GroupModules(rows: seq<JoinedRow>) returns (modules: seq<ModuleView>)
    ensures modules == Grouped(rows)
  {
    var keys: seq<int> := [];
    var dict: map<int, ModuleView> := map[];
    var i := 0;
    while i < |rows|
      invariant 0 <= i <= |rows|
      invariant keys == FirstSeen(rows[..i])
      invariant forall m :: m in dict <==> m in keys
      invariant forall j :: 0 <= j < |keys| ==> keys[j] in dict
      invariant forall m :: m in dict ==> dict[m] == ModuleOf(rows[..i], m)
    {
      var row := rows[i];
      assert rows[..i + 1] == rows[..i] + [row];
      if row.moduleNumber !in dict {
        dict := dict[row.moduleNumber := ModuleView(row.moduleNumber, row.name, row.duration, [])];
        keys := keys + [row.moduleNumber];
      }
      if row.contentId.Some? {
        var entry := dict[row.moduleNumber];
        dict := dict[row.moduleNumber := entry.(content := entry.content +
          [ContentView(row.contentId.value, row.title, row.contentType, row.url)])];
      }
      forall m | m in dict
        ensures dict[m] == ModuleOf(rows[..i + 1], m)
      {
        ModuleOfExtended(rows[..i], row, m);
      }
      i := i + 1;
    }
    assert rows[..i] == rows;
    modules := seq(|keys|, j requires 0 <= j < |keys| => dict[keys[j]]);
  }

  /** Extending the rows by one row: a new module starts, or the row's content is appended. */
  lemma {:induction false} ModuleOfExtended(rows: seq<JoinedRow>, row: JoinedRow, m: int)
    requires m in FirstSeen(rows + [row])
    ensures ModuleOf(rows + [row], m) ==
      (if m in FirstSeen(rows)
       then ModuleOf(rows, m).(content := ModuleOf(rows, m).content +
         (if row.moduleNumber == m then ContentItem(row) else []))
       else ModuleView(m, row.name, row.duration, ContentItem(row)))
  {
    var all := rows + [row];
    assert all[..|all| - 1] == rows;
    if m !in FirstSeen(rows) {
      ContentOfAbsent(rows, m);
    }
  }

  /** A module number that has no row has no content either. */
  lemma {:induction false} ContentOfAbsent(rows: seq<JoinedRow>, m: int)
    requires m !in FirstSeen(rows)
    ensures ContentOf(rows, m) == []
  {
    if rows != [] {
      var before := rows[..|rows| - 1];
      assert m !in FirstSeen(before);
      ContentOfAbsent(before, m);
    }
  }

  /** A module number is listed iff some row carries it. */
  lemma {:induction false} FirstSeenMembers(rows: seq<JoinedRow>, m: int)
    ensures m in FirstSeen(rows) <==> exists i :: 0 <= i < |rows| && rows[i].moduleNumber == m
  {
    if rows != [] {
      var before := rows[..|rows| - 1];
      FirstSeenMembers(before, m);
      if exists i :: 0 <= i < |before| && before[i].moduleNumber == m {
        var i :| 0 <= i < |before| && before[i].moduleNumber == m;
        assert rows[i].moduleNumber == m;
      }
      if exists i :: 0 <= i < |rows| && rows[i].moduleNumber == m {
        var i :| 0 <= i < |rows| && rows[i].moduleNumber == m;
        if i < |before| { assert before[i].moduleNumber == m; }
      }
    }
  }

  /** No module number is listed twice. */
  lemma {:induction false} FirstSeenDistinct(rows: seq<JoinedRow>)
    ensures forall i, j :: 0 <= i < j < |FirstSeen(rows)| ==> FirstSeen(rows)[i] != FirstSeen(rows)[j]
  {
    if rows != [] {
      FirstSeenDistinct(rows[..|rows| - 1]);
    }
  }

  /** Rows ordered by module number list their modules in increasing order. */
  lemma {:induction false} FirstSeenSorted(rows: seq<JoinedRow>)
    requires forall i, j :: 0 <= i < j < |rows| ==> rows[i].moduleNumber <= rows[j].moduleNumber
    ensures forall i, j :: 0 <= i < j < |FirstSeen(rows)| ==> FirstSeen(rows)[i] < FirstSeen(rows)[j]
  {
    if rows != [] {
      var n := |rows| - 1;
      var before := rows[..n];
      FirstSeenSorted(before);
      var m := rows[n].moduleNumber;
      if m !in FirstSeen(before) {
        forall x | x in FirstSeen(before)
          ensures x < m
        {
          FirstSeenMembers(before, x);
          var i :| 0 <= i < |before| && before[i].moduleNumber == x;
          assert rows[i].moduleNumber == x;
        }
        var fs := FirstSeen(before);
        assert FirstSeen(rows) == fs + [m];
        forall i, j | 0 <= i < j < |fs| + 1
          ensures (fs + [m])[i] < (fs + [m])[j]
        {
          if j == |fs| {
            assert fs[i] in fs;
          }
        }
      }
    }
  }

  /** Each module's name and duration come from the first row that carries its number. */
  lemma {:induction false} HeaderIsFirstRow(rows: seq<JoinedRow>, m: int)
    requires m in FirstSeen(rows)
    ensures exists k :: (0 <= k < |rows| && rows[k] == HeaderRow(rows, m) && rows[k].moduleNumber == m &&
      forall j :: 0 <= j < k ==> rows[j].moduleNumber != m)
  {
    var before := rows[..|rows| - 1];
    if m in FirstSeen(before) {
      HeaderIsFirstRow(before, m);
      var k :| 0 <= k < |before| && before[k] == HeaderRow(before, m) && before[k].moduleNumber == m &&
        forall j :: 0 <= j < k ==> before[j].moduleNumber != m;
      assert rows[k] == before[k];
      assert forall j :: 0 <= j < k ==> rows[j] == before[j];
    } else {
      FirstSeenMembers(before, m);
      assert forall j :: 0 <= j < |before| ==> rows[j] == before[j];
      assert rows[|rows| - 1].moduleNumber == m;
    }
  }

  /** Every content item of module `m` comes from a row of `m` whose content id is set. */
  lemma {:induction false} ContentFromOwnRows(rows: seq<JoinedRow>, m: int)
    ensures forall c :: c in ContentOf(rows, m) ==> exists i :: (0 <= i < |rows| &&
      rows[i].moduleNumber == m && rows[i].contentId == Some(c.contentId) &&
      c == ContentView(rows[i].contentId.value, rows[i].title, rows[i].contentType, rows[i].url))
  {
    if rows != [] {
      var before := rows[..|rows| - 1];
      ContentFromOwnRows(before, m);
      forall c | c in ContentOf(rows, m)
        ensures exists i :: (0 <= i < |rows| &&
          rows[i].moduleNumber == m && rows[i].contentId == Some(c.contentId) &&
          c == ContentView(rows[i].contentId.value, rows[i].title, rows[i].contentType, rows[i].url))
      {
        if c in ContentOf(before, m) {
          var i :| 0 <= i < |before| &&
            before[i].moduleNumber == m && before[i].contentId == Some(c.contentId) &&
            c == ContentView(before[i].contentId.value, before[i].title, before[i].contentType, before[i].url);
          assert rows[i] == before[i];
        } else {
          assert c in ContentItem(rows[|rows| - 1]);
        }
      }
    }
  }

  /** Every row with a content id contributes its item to its own module's content. */
  lemma {:induction false} RowContentListed(rows: seq<JoinedRow>, i: int)
    requires 0 <= i < |rows| && rows[i].contentId.Some?
    ensures ContentItem(rows[i])[0] in ContentOf(rows, rows[i].moduleNumber)
  {
    var n := |rows| - 1;
    if i < n {
      var before := rows[..n];
      assert before[i] == rows[i];
      RowContentListed(before, i);
    }
  }

  /** A module's content list holds as many items as it has rows with a content id. */
  lemma {:induction false} ContentCount(rows: seq<JoinedRow>, m: int)
    ensures |ContentOf(rows, m)| == |set i | 0 <= i < |rows| && rows[i].moduleNumber == m && rows[i].contentId.Some?|
  {
    var s := set i | 0 <= i < |rows| && rows[i].moduleNumber == m && rows[i].contentId.Some?;
    if rows != [] {
      var n := |rows| - 1;
      var before := rows[..n];
      ContentCount(before, m);
      var s0 := set i | 0 <= i < |before| && before[i].moduleNumber == m && before[i].contentId.Some?;
      assert forall i :: 0 <= i < n ==> before[i] == rows[i];
      assert ContentOf(rows, m) == ContentOf(before, m) +
        (if rows[n].moduleNumber == m then ContentItem(rows[n]) else []);
      if rows[n].moduleNumber == m && rows[n].contentId.Some? {
        assert s == s0 + {n} && n !in s0;
      } else {
        assert s == s0;
      }
    }
  }
}
