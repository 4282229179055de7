/** Two repairs of a recordings screen whose `_downloadRecording` method was pasted
    twice: a one-pass line filter that keeps the first definition and drops every later
    one with its body, and a find-and-slice removal of the second definition. */
module RecordViewPatch {
  import opened Text

  // The line filter.

  /** The comment line written above the kept definition (in short pieces, so that the
      verifier can see each of its characters). */
  const DownloadComment: string :=
    "  // \U{130}ndi" + "rme i\U{15F}le" + "vini ba" + "\U{15F}lat (D" + "ownload" + " functi" + "on)\n"

  /** A line that looks like the header of a `_downloadRecording` definition. */
  predicate IsHeader(line: string)
  {
    Contains(line, "_downloadRecording") && Contains(line, "void") && Contains(line, "(")
  }

  /** A line that, stripped of surrounding whitespace, is a lone closing brace. */
  predicate IsBlockEnd(line: string)
  {
    Strip(line) == "}"
  }

  /** The filter over `lines`, given whether a definition was already kept and whether
      a dropped definition is being skipped: the first header is kept with the comment
      before it; a later header is dropped and starts skipping; while skipping, lines are
      dropped up to and including the first lone closing brace; every other line is
      copied. */
  function Filter(lines: seq<string>, methodFound: bool, skipping: bool): seq<string>
    decreases |lines|
  {
    if lines == [] then []
    else
      var line := lines[0];
      if IsHeader(line) then
        if !methodFound then [DownloadComment, line] + Filter(lines[1..], true, skipping)
        else Filter(lines[1..], true, true)
      else if skipping && IsBlockEnd(line) then Filter(lines[1..], methodFound, false)
      else if !skipping then [line] + Filter(lines[1..], methodFound, false)
      else Filter(lines[1..], methodFound, true)
  }

  /** `fix_record_view_screen`'s loop over the lines of the file. */
  method RemoveDuplicateDefinitions(lines: seq<string>) returns (newLines: seq<string>)
    ensures newLines == Filter(lines, false, false)
  {
    newLines := [];
    var methodFound := false;
    var skipCurrent := false;
    var i := 0;
    while i < |lines|
      invariant 0 <= i <= |lines|
      invariant newLines + Filter(lines[i..], methodFound, skipCurrent) == Filter(lines, false, false)
    {
      var line := lines[i];
      FilterStep(lines, i, methodFound, skipCurrent);
      if IsHeader(line) {
        if !methodFound {
          methodFound := true;
          AppendAssoc(newLines, [DownloadComment, line], Filter(lines[i + 1..], true, skipCurrent));
          newLines := newLines + [DownloadComment, line];
        } else {
          skipCurrent := true;
        }
      } else if skipCurrent && IsBlockEnd(line) {
        skipCurrent := false;
      } else if !skipCurrent {
        AppendAssoc(newLines, [line], Filter(lines[i + 1..], methodFound, false));
        newLines := newLines + [line];
      }
      i := i + 1;
    }
  }

  lemma AppendAssoc(a: seq<string>, b: seq<string>, c: seq<string>)
    ensures a + (b + c) == (a + b) + c
  {
  }

  /** One line of the filter, at position `i`. */
  lemma FilterStep(lines: seq<string>, i: nat, methodFound: bool, skipping: bool)
    requires i < |lines|
    ensures Filter(lines[i..], methodFound, skipping) ==
      var line := lines[i];
      var rest := lines[i + 1..];
      if IsHeader(line) then
        if !methodFound then [DownloadComment, line] + Filter(rest, true, skipping)
        else Filter(rest, true, true)
      else if skipping && IsBlockEnd(line) then Filter(rest, methodFound, false)
      else if !skipping then [line] + Filter(rest, methodFound, false)
      else Filter(rest, methodFound, true)
  {
    assert lines[i..][1..] == lines[i + 1..];
  }

  /** The comment line is not itself a header: it has no underscore. */
  lemma CommentIsNotHeader()
    ensures !IsHeader(DownloadComment)
  {
    assert '_' !in DownloadComment;
    NotContainsWithoutFirstChar(DownloadComment, "_downloadRecording");
  }

  function CountHeaders(lines: seq<string>): nat
  {
    if lines == [] then 0
    else (if IsHeader(lines[0]) then 1 else 0) + CountHeaders(lines[1..])
  }

  lemma CountHeadersCons(line: string, rest: seq<string>)
    ensures CountHeaders([line] + rest) == (if IsHeader(line) then 1 else 0) + CountHeaders(rest)
  {
    assert ([line] + rest)[1..] == rest;
  }

  /** The output keeps exactly one header when the input has any and a definition was
      not yet kept, and none otherwise. */
  lemma {:induction false} FilterKeepsOneHeader(lines: seq<string>, methodFound: bool, skipping: bool)
    ensures CountHeaders(Filter(lines, methodFound, skipping))
         == if !methodFound && CountHeaders(lines) > 0 then 1 else 0
    decreases |lines|
  {
    if lines != [] {
      var line := lines[0];
      var tail := lines[1..];
      assert CountHeaders(lines) == (if IsHeader(line) then 1 else 0) + CountHeaders(tail);
      if IsHeader(line) {
        if !methodFound {
          var rest := Filter(tail, true, skipping);
          FilterKeepsOneHeader(tail, true, skipping);
          CommentIsNotHeader();
          CountHeadersCons(line, rest);
          CountHeadersCons(DownloadComment, [line] + rest);
          assert Filter(lines, methodFound, skipping) == [DownloadComment] + ([line] + rest);
        } else {
          FilterKeepsOneHeader(tail, true, true);
        }
      } else if skipping && IsBlockEnd(line) {
        FilterKeepsOneHeader(tail, methodFound, false);
      } else if !skipping {
        FilterKeepsOneHeader(tail, methodFound, false);
        CountHeadersCons(line, Filter(tail, methodFound, false));
      } else {
        FilterKeepsOneHeader(tail, methodFound, true);
      }
    }
  }

  /** At most one line is added (the comment), and only while no definition was kept. */
  lemma {:induction false} FilterLength(lines: seq<string>, methodFound: bool, skipping: bool)
    ensures |Filter(lines, methodFound, skipping)| <= |lines| + (if methodFound then 0 else 1)
    decreases |lines|
  {
    if lines != [] {
      FilterLength(lines[1..], true, skipping);
      FilterLength(lines[1..], true, true);
      FilterLength(lines[1..], methodFound, false);
      FilterLength(lines[1..], methodFound, true);
    }
  }

  /** Every output line is the comment or a line of the input. */
  lemma {:induction false} FilterOutputFromInput(lines: seq<string>, methodFound: bool, skipping: bool)
    ensures forall l :: l in Filter(lines, methodFound, skipping) ==> l == DownloadComment || l in lines
    decreases |lines|
  {
    if lines != [] {
      FilterOutputFromInput(lines[1..], true, skipping);
      FilterOutputFromInput(lines[1..], true, true);
      FilterOutputFromInput(lines[1..], methodFound, false);
      FilterOutputFromInput(lines[1..], methodFound, true);
    }
  }

  /** Outside a skipped block, header-free lines are copied unchanged and in order. */
  lemma {:induction false} FilterCopiesHeaderFree(pre: seq<string>, rest: seq<string>, methodFound: bool)
    requires forall k :: 0 <= k < |pre| ==> !IsHeader(pre[k])
    ensures Filter(pre + rest, methodFound, false) == pre + Filter(rest, methodFound, false)
    decreases |pre|
  {
    if pre != [] {
      var all := pre + rest;
      assert all[0] == pre[0] && all[1..] == pre[1..] + rest;
      FilterCopiesHeaderFree(pre[1..], rest, methodFound);
      calc {
        Filter(all, methodFound, false);
        [pre[0]] + Filter(pre[1..] + rest, methodFound, false);
        [pre[0]] + (pre[1..] + Filter(rest, methodFound, false));
        { assert [pre[0]] + pre[1..] == pre; }
        pre + Filter(rest, methodFound, false);
      }
    } else {
      assert pre + rest == rest;
    }
  }

  /** An input without any header comes back unchanged. */
  lemma NoHeaderUnchanged(lines: seq<string>, methodFound: bool)
    requires forall k :: 0 <= k < |lines| ==> !IsHeader(lines[k])
    ensures Filter(lines, methodFound, false) == lines
  {
    FilterCopiesHeaderFree(lines, [], methodFound);
    assert lines + [] == lines;
  }

  /** The first header is kept, right after the comment line, behind the unchanged
      lines before it. */
  lemma FirstHeaderKept(pre: seq<string>, header: string, post: seq<string>)
    requires forall k :: 0 <= k < |pre| ==> !IsHeader(pre[k])
    requires IsHeader(header)
    ensures Filter(pre + [header] + post, false, false)
         == pre + [DownloadComment, header] + Filter(post, true, false)
  {
    FilterCopiesHeaderFree(pre, [header] + post, false);
    assert pre + [header] + post == pre + ([header] + post);
    assert ([header] + post)[1..] == post;
  }

  /** A later definition is dropped from its header through the first lone closing
      brace after it, and copying resumes behind that brace. */
  lemma DuplicateBlockDropped(header: string, body: seq<string>, close: string, rest: seq<string>)
    requires IsHeader(header) && IsBlockEnd(close)
    requires forall k :: 0 <= k < |body| ==> !IsHeader(body[k]) && !IsBlockEnd(body[k])
    ensures Filter([header] + body + [close] + rest, true, false) == Filter(rest, true, false)
  {
    BlockEndIsNotHeader(close);
    var tail := [close] + rest;
    assert tail[0] == close && tail[1..] == rest;
    assert Filter(tail, true, true) == Filter(rest, true, false);
    SkippedBodyDropped(body, tail);
    var all := [header] + (body + tail);
    assert all[0] == header && all[1..] == body + tail;
    assert all == [header] + body + [close] + rest;
  }

  /** A lone closing brace, surrounded only by whitespace, has no underscore and so is
      never a header. */
  lemma BlockEndIsNotHeader(line: string)
    requires IsBlockEnd(line)
    ensures !IsHeader(line)
  {
    StripKeepsMiddle(line);
    var a := |line| - |TrimStart(line)|;
    forall k | 0 <= k < |line| ensures line[k] != '_' {
      if a <= k < a + 1 {
        assert line[k] == line[a..a + 1][0];
      }
    }
    NotContainsWithoutFirstChar(line, "_downloadRecording");
  }

  lemma {:induction false} SkippedBodyDropped(body: seq<string>, rest: seq<string>)
    requires forall k :: 0 <= k < |body| ==> !IsHeader(body[k]) && !IsBlockEnd(body[k])
    ensures Filter(body + rest, true, true) == Filter(rest, true, true)
    decreases |body|
  {
    if body != [] {
      var all := body + rest;
      assert all[0] == body[0] && all[1..] == body[1..] + rest;
      SkippedBodyDropped(body[1..], rest);
    } else {
      assert body + rest == rest;
    }
  }

  // The find-and-slice removal.

  /** The header searched for (in short pieces, like the comment above). */
  const DownloadHeader: string :=
    "void _d" + "ownload" + "Recordi" + "ng(Stri" + "ng reco" + "rding) " + "async {"
  const BlockEnd: string := "  }"

  /** The outcome of the removal: a message with the file left as it was, or the new
      file content. */
  datatype Removal = NotFound(message: string) | Removed(content: string)

  /** The second `_downloadRecording` definition, from 25 characters before its header
      through 4 characters from the start of the first block end after it, is cut out. */
  function RemoveSecondDefinition(content: string): Removal
  {
    RemoveSecond(content, DownloadHeader, BlockEnd)
  }

  /** The removal over any header and block end. Each search starts where the previous
      one matched and runs only when that one succeeded; the first that fails names what
      was not found, and when all four succeed the second block is cut out. */
  function RemoveSecond(content: string, header: string, blockEnd: string): (r: Removal)
    ensures r.Removed? <==>
      var s1 := Find(content, header, 0);
      s1 != -1 &&
        var e1 := Find(content, blockEnd, s1);
        e1 != -1 &&
          var s2 := Find(content, header, e1);
          s2 != -1 && Find(content, blockEnd, s2) != -1
    ensures
      var s1 := Find(content, header, 0);
      s1 != -1 ==>
        var e1 := Find(content, blockEnd, s1);
        e1 != -1 ==>
          var s2 := Find(content, header, e1);
          s2 != -1 ==>
            var e2 := Find(content, blockEnd, s2);
            e2 != -1 ==> r == Removed(CutBlock(content, s2, e2))
  {
    var firstStart := Find(content, header, 0);
    if firstStart == -1 then NotFound("Could not find first _downloadRecording method")
    else
      var firstEnd := Find(content, blockEnd, firstStart);
      if firstEnd == -1 then NotFound("Could not find end of first _downloadRecording method")
      else
        var secondStart := Find(content, header, firstEnd);
        if secondStart == -1 then NotFound("Could not find second _downloadRecording method")
        else
          var secondEnd := Find(content, blockEnd, secondStart);
          if secondEnd == -1 then NotFound("Could not find end of second _downloadRecording method")
          else Removed(CutBlock(content, secondStart, secondEnd))
  }

  /** The content without the block whose header was found at `headerAt` and whose
      block end was found at `endAt`: everything before the 25 characters ahead of the
      header and everything from 4 characters past the start of the block end, as
      Python's `content[:headerAt - 25] + content[endAt + 4:]`. */
  function CutBlock(content: string, headerAt: nat, endAt: nat): string
  {
    SliceTo(content, headerAt - 25) + SliceFrom(content, endAt + 4)
  }

  /** The header has no closing brace, so a block end found at or after a header cannot
      end inside it. */
  lemma BlockEndAfterHeader(content: string, start: nat)
    requires OccursAt(content, DownloadHeader, start)
    ensures var e := Find(content, BlockEnd, start); e == -1 || e >= start + |DownloadHeader| - 2
  {
    HeaderHasNoBrace(content, start);
    BlockEndHasBrace(content);
  }

  /** Every character of an occurrence of the header differs from a closing brace. */
  lemma HeaderHasNoBrace(content: string, start: nat)
    requires OccursAt(content, DownloadHeader, start)
    ensures forall j :: start <= j < start + |DownloadHeader| ==> content[j] != '}'
  {
    assert '}' !in DownloadHeader;
    assert forall j :: start <= j < start + |DownloadHeader| ==>
      content[j] == content[start..start + |DownloadHeader|][j - start];
  }

  /** An occurrence of the block end has its brace two characters in. */
  lemma BlockEndHasBrace(content: string)
    ensures forall j :: OccursAt(content, BlockEnd, j) ==> content[j + 2] == '}'
  {
    assert forall j :: OccursAt(content, BlockEnd, j) ==> content[j + 2] == content[j..j + 3][2];
  }

  /** A header found at or after a block end starts after that block end's brace. */
  lemma HeaderAfterBlockEnd(content: string, e: nat)
    requires OccursAt(content, BlockEnd, e)
    ensures var h := Find(content, DownloadHeader, e); h == -1 || h >= e + 3
  {
    BlockEndHasBrace(content);
    var h := Find(content, DownloadHeader, e);
    if h != -1 {
      HeaderHasNoBrace(content, h);
    }
  }

  /** When it succeeds, the second header lies at least 50 characters after the first,
      so the cut starts at a real index, and the content before the cut and after it is
      kept verbatim. */
  lemma RemovalShape(content: string)
    requires RemoveSecondDefinition(content).Removed?
    ensures
      var s1 := Find(content, DownloadHeader, 0);
      var e1 := Find(content, BlockEnd, s1);
      var s2 := Find(content, DownloadHeader, e1);
      var e2 := Find(content, BlockEnd, s2);
      var cutEnd := if e2 + 4 > |content| then |content| else e2 + 4;
      var r := RemoveSecondDefinition(content).content;
      && s1 + 50 <= s2
      && 25 <= s2 - 25 < cutEnd
      && r == content[..s2 - 25] + content[cutEnd..]
      && |r| == |content| - (cutEnd - (s2 - 25))
  {
    var s1 := Find(content, DownloadHeader, 0);
    var e1 := Find(content, BlockEnd, s1);
    var s2 := Find(content, DownloadHeader, e1);
    var e2 := Find(content, BlockEnd, s2);
    RemovalPositions(content);
    CutShape(content, s2 - 25, e2 + 4);
  }

  /** Python's `content[:from] + content[to:]` for `0 <= from < to`: the text before
      `from` and the text from `to` on (clipped at the end), both verbatim. */
  lemma CutShape(content: string, from: int, to: int)
    requires 0 <= from < to && from <= |content|
    ensures var cutEnd := if to > |content| then |content| else to;
      && SliceTo(content, from) + SliceFrom(content, to) == content[..from] + content[cutEnd..]
      && |SliceTo(content, from) + SliceFrom(content, to)| == |content| - (cutEnd - from)
  {
  }

  /** Where the four searches land when they all succeed. */
  lemma RemovalPositions(content: string)
    requires RemoveSecondDefinition(content).Removed?
    ensures
      var s1 := Find(content, DownloadHeader, 0);
      var e1 := Find(content, BlockEnd, s1);
      var s2 := Find(content, DownloadHeader, e1);
      var e2 := Find(content, BlockEnd, s2);
      && 0 <= s1 && s1 + 50 <= s2 && s2 + 47 <= e2
  {
    var s1 := Find(content, DownloadHeader, 0);
    var e1 := Find(content, BlockEnd, s1);
    BlockEndAfterHeader(content, s1);
    HeaderAfterBlockEnd(content, e1);
    var s2 := Find(content, DownloadHeader, e1);
    BlockEndAfterHeader(content, s2);
  }
}
