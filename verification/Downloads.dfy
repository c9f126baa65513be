/** The pictures of an album: which message's photo is stored for which media row. */
module Downloads {
  import opened Prelude
  import opened Ingest

  /** An entry of `media_values`: whether it is a photo, and its file. */
  datatype Value = Value(photo: bool, file: string)

  /** A row's file to the photo whose picture its storage key leads to. */
  type Pictures = map<string, string>

  function ValueOf(m: Message): seq<Value> {
    if FileOf(m).Some? then [Value(m.photo.Some?, FileOf(m).value)] else []
  }

  function Values(ordered: seq<Message>): seq<Value> {
    if ordered == [] then [] else Values(ordered[..|ordered| - 1]) + ValueOf(ordered[|ordered| - 1])
  }

  /** The entries are those of the album's media rows. */
  lemma {:induction false} ValuesAreRows(s: seq<Message>)
    ensures |Values(s)| == |AlbumRows(s, 0)|
    ensures forall k | 0 <= k < |Values(s)| :: AlbumRows(s, 0)[k].file == Some(Values(s)[k].file)
  {
    if s != [] {
      ValuesAreRows(s[..|s| - 1]);
      AlbumRowsLast(s[..|s| - 1], s[|s| - 1], 0);
      assert s == s[..|s| - 1] + [s[|s| - 1]];
    }
  }

  lemma {:induction false} NoMoreValues(s: seq<Message>)
    ensures |Values(s)| <= |s|
  {
    if s != [] {
      NoMoreValues(s[..|s| - 1]);
    }
  }

  /** One turn of the loop over `zip(media_values, ordered)`; `got` says which downloads
      bring data. */
  function OneStored(pictures: Pictures, v: Value, m: Message, got: Message -> bool): Pictures {
    if v.photo && m.photo.Some? && got(m) then pictures[v.file := m.photo.value] else pictures
  }

  function Stored(pictures: Pictures, s: seq<Message>, got: Message -> bool, n: nat): Pictures
    requires n <= |Values(s)| <= |s|
  {
    if n == 0 then pictures else OneStored(Stored(pictures, s, got, n - 1), Values(s)[n - 1], s[n - 1], got)
  }

  function AllStored(pictures: Pictures, s: seq<Message>, got: Message -> bool): Pictures {
    NoMoreValues(s);
    Stored(pictures, s, got, |Values(s)|)
  }

  method StorePictures(pictures: Pictures, msgs: seq<Message>, got: Message -> bool) returns (r: Pictures)
    ensures r == AllStored(pictures, SortById(msgs), got)
  {
    var ordered := SortById(msgs);
    var values := Values(ordered);
    NoMoreValues(ordered);
    r := pictures;
    var i := 0;
    while i < |values| && i < |ordered|
      invariant 0 <= i <= |values|
      invariant r == Stored(pictures, ordered, got, i)
    {
      if values[i].photo && ordered[i].photo.Some? && got(ordered[i]) {
        r := r[values[i].file := ordered[i].photo.value];
      }
      i := i + 1;
    }
  }

  // ---- which entry is whose -------------------------------------------------------------

  /** How many messages before `j` have a file. */
  function Rank(s: seq<Message>, j: nat): nat
    requires j <= |s|
  {
    |Values(s[..j])|
  }

  lemma {:induction false} ValueAt(s: seq<Message>, j: nat)
    requires j < |s| && FileOf(s[j]).Some?
    ensures Rank(s, j) < |Values(s)| && Values(s)[Rank(s, j)] == Value(s[j].photo.Some?, FileOf(s[j]).value)
  {
    var front := s[..|s| - 1];
    if j < |front| {
      ValueAt(front, j);
      assert front[..j] == s[..j];
    }
  }

  lemma {:induction false} RankUpTo(s: seq<Message>, j: nat)
    requires j <= |s|
    ensures Rank(s, j) <= j
    ensures Rank(s, j) == j <==> forall i | 0 <= i < j :: FileOf(s[i]).Some?
  {
    if j > 0 {
      RankUpTo(s, j - 1);
      assert s[..j][..j - 1] == s[..j - 1];
    }
  }

  /** No two of the messages carry one file. */
  predicate FilesApart(s: seq<Message>) {
    forall i, j | 0 <= i < j < |s| && FileOf(s[i]).Some? :: FileOf(s[i]) != FileOf(s[j])
  }

  lemma {:induction false} OwnerOf(s: seq<Message>, k: nat) returns (j: nat)
    requires k < |Values(s)|
    ensures j < |s| && FileOf(s[j]) == Some(Values(s)[k].file) && Rank(s, j) == k
  {
    var front := s[..|s| - 1];
    if k < |Values(front)| {
      j := OwnerOf(front, k);
      assert front[..j] == s[..j];
    } else {
      j := |front|;
    }
  }

  lemma OneEntry(s: seq<Message>, j: nat, k: nat)
    requires FilesApart(s) && j < |s| && k < |Values(s)| && FileOf(s[j]) == Some(Values(s)[k].file)
    ensures k == Rank(s, j)
  {
    var i := OwnerOf(s, k);
    assert i == j;
  }

  // ---- whose picture a row gets ---------------------------------------------------------

  function Picture(pictures: Pictures, file: string): Option<string> {
    if file in pictures then Some(pictures[file]) else None
  }

  lemma {:induction false} PictureAfter(pictures: Pictures, s: seq<Message>, got: Message -> bool, j: nat, n: nat)
    requires FilesApart(s) && j < |s| && s[j].photo.Some? && n <= |Values(s)| <= |s|
    ensures Rank(s, j) < |s|
    ensures var from := s[Rank(s, j)];
      Picture(Stored(pictures, s, got, n), s[j].photo.value)
        == if Rank(s, j) < n && from.photo.Some? && got(from) then from.photo
           else Picture(pictures, s[j].photo.value)
  {
    ValueAt(s, j);
    if n > 0 {
      PictureAfter(pictures, s, got, j, n - 1);
      if Values(s)[n - 1].file == s[j].photo.value {
        OneEntry(s, j, n - 1);
      }
    }
  }

  /** The row of a photo gets the picture of the message whose place among all messages is
      the row's place among those with a file; when that message has no photo, or its
      download brings nothing, the row keeps what it had. */
  lemma PictureOf(pictures: Pictures, s: seq<Message>, got: Message -> bool, j: nat)
    requires FilesApart(s) && j < |s| && s[j].photo.Some?
    ensures Rank(s, j) <= j
    ensures var from := s[Rank(s, j)];
      Picture(AllStored(pictures, s, got), s[j].photo.value)
        == if from.photo.Some? && got(from) then from.photo else Picture(pictures, s[j].photo.value)
  {
    NoMoreValues(s);
    ValueAt(s, j);
    RankUpTo(s, j);
    PictureAfter(pictures, s, got, j, |Values(s)|);
  }

  /** Every photo has its own picture. */
  predicate OwnPictures(pictures: Pictures, s: seq<Message>) {
    forall j | 0 <= j < |s| && s[j].photo.Some? :: Picture(pictures, s[j].photo.value) == s[j].photo
  }

  /** No message without a file stands before a photo. */
  predicate NoGapBefore(s: seq<Message>) {
    forall i, j | 0 <= i < j < |s| && s[j].photo.Some? :: FileOf(s[i]).Some?
  }

  /** When all downloads bring data, every photo of an album ends with its own picture
      exactly when no message without a file stands before a photo; else one ends with
      another photo's picture or none. */
  lemma OwnPicturesIff(s: seq<Message>, got: Message -> bool)
    requires FilesApart(s) && forall m | m in s :: got(m)
    ensures OwnPictures(AllStored(map[], s, got), s) <==> NoGapBefore(s)
  {
    forall j | 0 <= j < |s| && s[j].photo.Some?
      ensures Picture(AllStored(map[], s, got), s[j].photo.value) == s[j].photo
        <==> forall i | 0 <= i < j :: FileOf(s[i]).Some?
    {
      PictureOf(map[], s, got, j);
      RankUpTo(s, j);
    }
  }

  /** In an album of a message without a file and two photos behind it the second photo
      shows the first one's picture, and the first has none. */
  lemma PictureOfAnother(m: Message, a: Message, b: Message, got: Message -> bool)
    requires FileOf(m).None? && a.photo.Some? && b.photo.Some? && a.photo != b.photo && got(a)
    ensures var r := AllStored(map[], [m, a, b], got);
      Picture(r, b.photo.value) == a.photo && Picture(r, a.photo.value) == None
  {
    var s := [m, a, b];
    assert [m][..0] == [] && Values([m]) == [];
    assert [m, a][..1] == [m] && |Values([m, a])| == 1;
    assert s[..1] == [m] && s[..2] == [m, a];
    assert Rank(s, 1) == 0 && Rank(s, 2) == 1;
    PictureOf(map[], s, got, 1);
    PictureOf(map[], s, got, 2);
  }
}
