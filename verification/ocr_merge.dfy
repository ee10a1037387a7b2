/**
 * The merge loop of `extract_csv` (backend/ocr_module.py): every image,
 * then every page of the PDF, is sent to the vision model, and the text it
 * returns is folded into one header and a list of data lines. The model's
 * reply for each source is an input (`None` when the call raises); so are
 * whether an image or page could be opened and rendered.
 */
module OcrMerge {

  import opened Wrappers
  import opened Text

  /** One entry of the `images` field. */
  datatype ImageUpload = ImageUpload(filename: string, opens: bool, reply: Option<string>)

  /** One page of the uploaded PDF: whether it renders, and the model's reply for it. */
  datatype PdfPage = PdfPage(renders: bool, reply: Option<string>)

  /** The `pdf` field: whether PyMuPDF opens it, and its pages. */
  datatype PdfUpload = PdfUpload(filename: string, opens: bool, pages: seq<PdfPage>)

  // ---------------------------------------------------------------------------
  // Which sources reach the model, in order
  // ---------------------------------------------------------------------------

  /** An image reaches the model when it has a file name and opens. */
  predicate Sent(img: ImageUpload) {
    img.filename != "" && img.opens
  }

  /** Images with a file name that open, in upload order. */
  function ImageReplies(images: seq<ImageUpload>): (r: seq<Option<string>>)
    ensures |r| <= |images|
    ensures forall k :: 0 <= k < |r| ==> exists i :: 0 <= i < |images| && images[i].reply == r[k]
  {
    if |images| == 0 then []
    else
      var rest := ImageReplies(images[1..]);
      assert forall k :: 0 <= k < |rest| ==> exists i :: 0 <= i < |images| && images[i].reply == rest[k] by {
        forall k | 0 <= k < |rest| ensures exists i :: 0 <= i < |images| && images[i].reply == rest[k] {
          var i :| 0 <= i < |images[1..]| && images[1..][i].reply == rest[k];
          assert images[i + 1] == images[1..][i];
        }
      }
      if Sent(images[0]) then [images[0].reply] + rest else rest
  }

  /** Pages that render, in page order. */
  function PageReplies(pages: seq<PdfPage>): (r: seq<Option<string>>)
    ensures |r| <= |pages|
  {
    if |pages| == 0 then []
    else if pages[0].renders then [pages[0].reply] + PageReplies(pages[1..])
    else PageReplies(pages[1..])
  }

  /** Images first, then the PDF's pages when a named PDF was given and opens. */
  function Replies(images: seq<ImageUpload>, pdf: Option<PdfUpload>): (r: seq<Option<string>>)
    ensures pdf.None? || pdf.value.filename == "" || !pdf.value.opens ==> r == ImageReplies(images)
    ensures pdf.Some? && pdf.value.filename != "" && pdf.value.opens ==>
      r == ImageReplies(images) + PageReplies(pdf.value.pages)
  {
    if pdf.Some? && pdf.value.filename != "" && pdf.value.opens then ImageReplies(images) + PageReplies(pdf.value.pages)
    else ImageReplies(images)
  }

  /** The images' replies are those of each image in turn: upload order is kept. */
  lemma {:induction false} ImageRepliesAppend(a: seq<ImageUpload>, b: seq<ImageUpload>)
    ensures ImageReplies(a + b) == ImageReplies(a) + ImageReplies(b)
    decreases |a|
  {
    if |a| == 0 {
      assert a + b == b;
    } else {
      assert (a + b)[0] == a[0];
      assert (a + b)[1..] == a[1..] + b;
      ImageRepliesAppend(a[1..], b);
    }
  }

  /** One image contributes its reply exactly when it is sent. */
  lemma ImageRepliesSingle(img: ImageUpload)
    ensures ImageReplies([img]) == if Sent(img) then [img.reply] else []
  {
    assert [img][1..] == [];
  }

  /** The pages' replies are those of each page in turn: page order is kept. */
  lemma {:induction false} PageRepliesAppend(a: seq<PdfPage>, b: seq<PdfPage>)
    ensures PageReplies(a + b) == PageReplies(a) + PageReplies(b)
    decreases |a|
  {
    if |a| == 0 {
      assert a + b == b;
    } else {
      assert (a + b)[0] == a[0];
      assert (a + b)[1..] == a[1..] + b;
      PageRepliesAppend(a[1..], b);
    }
  }

  /** One page contributes its reply exactly when it renders. */
  lemma PageRepliesSingle(page: PdfPage)
    ensures PageReplies([page]) == if page.renders then [page.reply] else []
  {
    assert [page][1..] == [];
  }

  /** An image with an empty file name, or one that does not open, never reaches the model. */
  lemma SkippedImageContributesNothing(before: seq<ImageUpload>, img: ImageUpload, after: seq<ImageUpload>)
    requires img.filename == "" || !img.opens
    ensures ImageReplies(before + [img] + after) == ImageReplies(before + after)
    decreases |before|
  {
    if |before| == 0 {
      assert before + [img] + after == [img] + after;
      assert ([img] + after)[0] == img;
      assert before + after == after;
      assert ([img] + after)[1..] == after;
    } else {
      assert (before + [img] + after)[1..] == before[1..] + [img] + after;
      assert (before + after)[1..] == before[1..] + after;
      SkippedImageContributesNothing(before[1..], img, after);
    }
  }

  // ---------------------------------------------------------------------------
  // From one reply to lines
  // ---------------------------------------------------------------------------

  /** A line as `strip` leaves it, and not blank. */
  predicate Trimmed(l: string) {
    l != "" && !IsPySpace(l[0]) && !IsPySpace(l[|l| - 1])
  }

  lemma StripTrimmed(s: string)
    requires Strip(s) != ""
    ensures Trimmed(Strip(s))
  {
  }

  /** `[line.strip() for line in lines if line.strip()]` */
  function CleanLines(xs: seq<string>): (r: seq<string>)
    requires forall i :: 0 <= i < |xs| ==> NoLineBreak(xs[i])
    ensures |r| <= |xs|
    ensures forall k :: 0 <= k < |r| ==> Trimmed(r[k]) && NoLineBreak(r[k])
  {
    if |xs| == 0 then []
    else
      var l := Strip(xs[0]);
      StripNoLineBreak(xs[0]);
      assert forall i :: 0 <= i < |xs[1..]| ==> xs[1..][i] == xs[i + 1];
      var rest := CleanLines(xs[1..]);
      if l != "" then
        StripTrimmed(xs[0]);
        CleanCons(l, rest);
        [l] + rest
      else rest
  }

  lemma CleanCons(l: string, rest: seq<string>)
    requires Trimmed(l) && NoLineBreak(l)
    requires forall k :: 0 <= k < |rest| ==> Trimmed(rest[k]) && NoLineBreak(rest[k])
    ensures forall k :: 0 <= k < |[l] + rest| ==> Trimmed(([l] + rest)[k]) && NoLineBreak(([l] + rest)[k])
  {
    forall k | 0 <= k < |[l] + rest|
      ensures Trimmed(([l] + rest)[k]) && NoLineBreak(([l] + rest)[k])
    {
      if k > 0 {
        assert ([l] + rest)[k] == rest[k - 1];
      }
    }
  }

  /** The cleaned lines are those of each line in turn: line order is kept. */
  lemma {:induction false} CleanLinesAppend(a: seq<string>, b: seq<string>)
    requires forall i :: 0 <= i < |a| ==> NoLineBreak(a[i])
    requires forall i :: 0 <= i < |b| ==> NoLineBreak(b[i])
    ensures CleanLines(a + b) == CleanLines(a) + CleanLines(b)
    decreases |a|
  {
    if |a| == 0 {
      assert a + b == b;
    } else {
      assert (a + b)[0] == a[0];
      assert (a + b)[1..] == a[1..] + b;
      assert forall i :: 0 <= i < |a[1..]| ==> a[1..][i] == a[i + 1];
      CleanLinesAppend(a[1..], b);
    }
  }

  /** One line is kept, stripped, exactly when something is left after stripping. */
  lemma CleanLinesSingle(line: string)
    requires NoLineBreak(line)
    ensures CleanLines([line]) == if Strip(line) != "" then [Strip(line)] else []
  {
    assert [line][1..] == [];
  }

  lemma NoLineBreakSlice(s: string, a: nat, b: nat)
    requires a <= b <= |s| && NoLineBreak(s)
    ensures NoLineBreak(s[a..b])
  {
    forall i | 0 <= i < b - a ensures !IsLineBreak(s[a..b][i]) {
      assert s[a..b][i] == s[a + i];
    }
  }

  lemma StripNoLineBreak(s: string)
    requires NoLineBreak(s)
    ensures NoLineBreak(Strip(s))
  {
    var l := LStrip(s);
    NoLineBreakSlice(s, |s| - |l|, |s|);
    var r := RStrip(l);
    NoLineBreakSlice(l, 0, |r|);
  }

  /** The non-blank, trimmed lines of a reply. */
  function ReplyLines(reply: string): (r: seq<string>)
    ensures forall k :: 0 <= k < |r| ==> r[k] != "" && NoLineBreak(r[k])
  {
    CleanLines(SplitLines(Strip(reply)))
  }

  /** The lines of every reply that reached the model, in processing order. */
  type Blocks = seq<seq<string>>

  /** A reply is used when it has a first line and at least one more. */
  predicate Contributes(lines: seq<string>) {
    |lines| >= 2
  }

  /** Every line of every block is non-blank and holds no line boundary. */
  predicate WellFormed(blocks: Blocks) {
    forall i, k :: 0 <= i < |blocks| && 0 <= k < |blocks[i]| ==> blocks[i][k] != "" && NoLineBreak(blocks[i][k])
  }

  // ---------------------------------------------------------------------------
  // The fold, and what it computes
  // ---------------------------------------------------------------------------

  datatype Merged = Merged(header: Option<string>, rows: seq<string>)

  /** One loop iteration: the first used reply sets the header; every used reply drops its first line. */
  function Step(m: Merged, lines: seq<string>): Merged {
    if !Contributes(lines) then m
    else Merged(if m.header.None? then Some(lines[0]) else m.header, m.rows + lines[1..])
  }

  function Fold(m: Merged, blocks: Blocks): Merged
    decreases |blocks|
  {
    if |blocks| == 0 then m else Fold(Step(m, blocks[0]), blocks[1..])
  }

  /** The first line of the first reply that is used. */
  function FirstHeader(blocks: Blocks): (r: Option<string>)
    ensures r.Some? <==> exists i :: 0 <= i < |blocks| && Contributes(blocks[i])
    ensures r.Some? ==>
      exists i :: (0 <= i < |blocks| && Contributes(blocks[i]) && r.value == blocks[i][0]
                   && forall j :: 0 <= j < i ==> !Contributes(blocks[j]))
  {
    if |blocks| == 0 then None
    else if Contributes(blocks[0]) then Some(blocks[0][0])
    else
      var r := FirstHeader(blocks[1..]);
      assert forall i :: 0 <= i < |blocks[1..]| ==> blocks[1..][i] == blocks[i + 1];
      assert r.Some? <==> exists i :: 0 <= i < |blocks| && Contributes(blocks[i]) by {
        if exists i :: 0 <= i < |blocks| && Contributes(blocks[i]) {
          var i :| 0 <= i < |blocks| && Contributes(blocks[i]);
          assert i > 0 && Contributes(blocks[1..][i - 1]);
        }
      }
      if r.Some? then
        var i :| 0 <= i < |blocks[1..]| && Contributes(blocks[1..][i]) && r.value == blocks[1..][i][0]
          && forall j :: 0 <= j < i ==> !Contributes(blocks[1..][j]);
        assert forall j :: 0 <= j < i + 1 ==> !Contributes(blocks[j]) by {
          forall j | 0 <= j < i + 1 ensures !Contributes(blocks[j]) {
            if j > 0 {
              assert blocks[j] == blocks[1..][j - 1];
            }
          }
        }
        r
      else r
  }

  /** The data lines of every used reply, in order, each without its first line. */
  function RowsOf(blocks: Blocks): seq<string> {
    if |blocks| == 0 then []
    else (if Contributes(blocks[0]) then blocks[0][1..] else []) + RowsOf(blocks[1..])
  }

  /** Rows keep the shape of the lines they come from. */
  lemma {:induction false} RowsOfWellFormed(blocks: Blocks)
    requires WellFormed(blocks)
    ensures forall k :: 0 <= k < |RowsOf(blocks)| ==> RowsOf(blocks)[k] != "" && NoLineBreak(RowsOf(blocks)[k])
  {
    if |blocks| > 0 {
      assert WellFormed(blocks[1..]) by {
        forall i, k | 0 <= i < |blocks[1..]| && 0 <= k < |blocks[1..][i]|
          ensures blocks[1..][i][k] != "" && NoLineBreak(blocks[1..][i][k])
        {
          assert blocks[1..][i] == blocks[i + 1];
        }
      }
      RowsOfWellFormed(blocks[1..]);
      var own := if Contributes(blocks[0]) then blocks[0][1..] else [];
      var rest := RowsOf(blocks[1..]);
      forall k | 0 <= k < |own + rest| ensures (own + rest)[k] != "" && NoLineBreak((own + rest)[k]) {
        if k < |own| {
          assert (own + rest)[k] == blocks[0][k + 1];
        } else {
          assert (own + rest)[k] == rest[k - |own|];
        }
      }
    }
  }

  /** The loop keeps the header it has, else takes the first one offered, and appends every row. */
  lemma {:induction false} FoldComputes(m: Merged, blocks: Blocks)
    ensures Fold(m, blocks) == Merged(if m.header.Some? then m.header else FirstHeader(blocks), m.rows + RowsOf(blocks))
    decreases |blocks|
  {
    if |blocks| > 0 {
      var next := Step(m, blocks[0]);
      FoldComputes(next, blocks[1..]);
      var own := if Contributes(blocks[0]) then blocks[0][1..] else [];
      assert next.rows == m.rows + own;
      assert m.rows + own + RowsOf(blocks[1..]) == m.rows + (own + RowsOf(blocks[1..]));
    }
  }

  // ---------------------------------------------------------------------------
  // The route's answer
  // ---------------------------------------------------------------------------

  datatype ExtractResult =
    | Extracted(csv: string)   // 200, "CSV data extracted successfully."
    | NoTable                  // 400, "No valid table data found in images or PDF. ..."
    | ExtractFailed            // 500, a model call raised

  predicate AllAnswered(replies: seq<Option<string>>) {
    forall i :: 0 <= i < |replies| ==> replies[i].Some?
  }

  function Texts(replies: seq<Option<string>>): (r: seq<string>)
    requires AllAnswered(replies)
    ensures |r| == |replies| && forall i :: 0 <= i < |r| ==> Some(r[i]) == replies[i]
  {
    seq(|replies|, i requires 0 <= i < |replies| => replies[i].value)
  }

  /** `header + "\n" + "\n".join(csv_rows)`, or the 400 when either is missing. */
  function Finish(m: Merged): (r: ExtractResult)
    ensures r.Extracted? <==> m.header.Some? && m.rows != []
    ensures r.Extracted? ==> r.csv == Join("\n", [m.header.value] + m.rows)
  {
    if m.header.None? || m.rows == [] then NoTable
    else
      assert ([m.header.value] + m.rows)[1..] == m.rows;
      Extracted(m.header.value + "\n" + Join("\n", m.rows))
  }

  /** The lines of each reply. */
  function BlocksOf(texts: seq<string>): (r: Blocks)
    ensures |r| == |texts| && forall i :: 0 <= i < |r| ==> r[i] == ReplyLines(texts[i])
    ensures WellFormed(r)
  {
    seq(|texts|, i requires 0 <= i < |texts| => ReplyLines(texts[i]))
  }

  /**
   * The whole extraction. The CSV is the first used reply's first line
   * followed by the data lines of every used reply, in processing order,
   * and splitting it into lines gives exactly those lines back.
   */
  function Extract(images: seq<ImageUpload>, pdf: Option<PdfUpload>): (r: ExtractResult)
    ensures r.ExtractFailed? <==> !AllAnswered(Replies(images, pdf))
    ensures r.Extracted? ==>
      var blocks := BlocksOf(Texts(Replies(images, pdf)));
      FirstHeader(blocks).Some? && RowsOf(blocks) != []
      && SplitLines(r.csv) == [FirstHeader(blocks).value] + RowsOf(blocks)
    ensures r.NoTable? ==>
      var blocks := BlocksOf(Texts(Replies(images, pdf)));
      FirstHeader(blocks).None? || RowsOf(blocks) == []
  {
    var replies := Replies(images, pdf);
    if !AllAnswered(replies) then ExtractFailed
    else
      var blocks := BlocksOf(Texts(replies));
      FoldComputes(Merged(None, []), blocks);
      assert [] + RowsOf(blocks) == RowsOf(blocks);
      var r := Finish(Fold(Merged(None, []), blocks));
      if r.Extracted? then
        RowsOfWellFormed(blocks);
        CsvLinesRoundTrip(FirstHeader(blocks).value, RowsOf(blocks));
        r
      else r
  }

  lemma CsvLinesRoundTrip(header: string, rows: seq<string>)
    requires header != "" && NoLineBreak(header)
    requires rows != [] && forall k :: 0 <= k < |rows| ==> rows[k] != "" && NoLineBreak(rows[k])
    ensures SplitLines(Join("\n", [header] + rows)) == [header] + rows
  {
    var xs := [header] + rows;
    assert xs[|xs| - 1] == rows[|rows| - 1];
    SplitLinesOfJoin(xs);
  }

  /** A later reply's first line is dropped whatever it says; its data lines are all added. */
  lemma LaterHeaderDiscarded(first: seq<string>, later: seq<string>)
    requires Contributes(first) && Contributes(later)
    ensures Fold(Merged(None, []), [first, later]) == Merged(Some(first[0]), first[1..] + later[1..])
  {
    var m1 := Step(Merged(None, []), first);
    assert m1 == Merged(Some(first[0]), [] + first[1..]);
    assert [] + first[1..] == first[1..];
    assert [first, later][1..] == [later];
    assert Fold(m1, [later]) == Fold(Step(m1, later), []);
  }
}
