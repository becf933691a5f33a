/** The media-URL decomposition of TwitterDataWriter.add_message: the kind of a media URL
    is read off its prefix, and the rest of the URL is split at "/" into the pieces the
    media row is built from. */
module Media {
  import opened Wrappers
  import opened Strings

  datatype MediaKind = Image | Gif | Video

  const ImagePrefix: string := "https://ton.twitter.com/dm/"
  const GifPrefix: string := "https://video.twimg.com/dm_gif/"
  const VideoPrefix: string := "https://video.twimg.com/dm_video/"

  /** The url_prefixes dict. */
  function Prefix(k: MediaKind): string
  {
    match k
    case Image => ImagePrefix
    case Gif => GifPrefix
    case Video => VideoPrefix
  }

  /** The media row's id and filename, and its type. */
  datatype MediaParts = MediaParts(kind: MediaKind, mediaId: string, filename: string)

  /** The RuntimeError of an unsupported prefix, the ValueError of a tuple unpacking that
      gets the wrong number of pieces, and the AssertionError of an image URL that names
      another message. */
  datatype MediaError = UnsupportedUrl(url: string) | WrongPieceCount(url: string) | OtherMessage(url: string)

  /** The first prefix, in the dict's order image, gif, video, that the URL starts with. */
  function KindOf(url: string): (r: Option<MediaKind>)
    ensures r.Some? ==> StartsWith(url, Prefix(r.value))
    ensures r.None? <==>
      !StartsWith(url, ImagePrefix) && !StartsWith(url, GifPrefix) && !StartsWith(url, VideoPrefix)
  {
    if StartsWith(url, ImagePrefix) then Some(Image)
    else if StartsWith(url, GifPrefix) then Some(Gif)
    else if StartsWith(url, VideoPrefix) then Some(Video)
    else None
  }

  /** The pieces after the prefix: message id, media id and filename for an image; media
      id and filename for a gif; media id, two ignored pieces and filename for a video. */
  function Decompose(url: string, messageId: string): Result<MediaParts, MediaError>
  {
    match KindOf(url)
    case None => Failure(UnsupportedUrl(url))
    case Some(k) =>
      var comps := Pieces(url, k);
      match k
      case Image =>
        if |comps| != 3 then Failure(WrongPieceCount(url))
        else if comps[0] != messageId then Failure(OtherMessage(url))
        else Success(MediaParts(Image, comps[1], comps[2]))
      case Gif =>
        if |comps| != 2 then Failure(WrongPieceCount(url))
        else Success(MediaParts(Gif, comps[0], comps[1]))
      case Video =>
        if |comps| != 4 then Failure(WrongPieceCount(url))
        else Success(MediaParts(Video, comps[0], comps[3]))
  }

  /** A URL is refused as unsupported exactly when it has none of the three prefixes. */
  lemma UnsupportedExactly(url: string, messageId: string)
    ensures Decompose(url, messageId) == Failure(UnsupportedUrl(url)) <==>
      !StartsWith(url, ImagePrefix) && !StartsWith(url, GifPrefix) && !StartsWith(url, VideoPrefix)
  {
  }

  /** A decomposed URL is its prefix followed by its pieces joined with "/": an image URL
      names the message it came with, and no piece holds a "/". */
  lemma DecomposedShape(url: string, messageId: string)
    requires Decompose(url, messageId).Success?
    ensures var p := Decompose(url, messageId).value;
      && '/' !in p.mediaId && '/' !in p.filename
      && (p.kind == Image ==> url == ImagePrefix + (messageId + "/" + p.mediaId + "/" + p.filename))
      && (p.kind == Gif ==> url == GifPrefix + (p.mediaId + "/" + p.filename))
      && (p.kind == Video ==> exists a: string, b: string ::
            '/' !in a && '/' !in b && url == VideoPrefix + (p.mediaId + "/" + a + "/" + b + "/" + p.filename))
  {
    var k := KindOf(url).value;
    var comps := Pieces(url, k);
    PiecesJoin(url, k);
    if k == Image {
      Join3(comps[0], comps[1], comps[2]);
      assert comps == [comps[0], comps[1], comps[2]];
    } else if k == Gif {
      JoinCons(comps[0], [comps[1]], "/");
      assert comps == [comps[0]] + [comps[1]];
    } else {
      Join4(comps[0], comps[1], comps[2], comps[3]);
      assert comps == [comps[0], comps[1], comps[2], comps[3]];
      var a, b := comps[1], comps[2];
      assert '/' !in a && '/' !in b && url == VideoPrefix + (comps[0] + "/" + a + "/" + b + "/" + comps[3]);
    }
  }

  /** The pieces of the URL after the prefix of kind k. */
  function Pieces(url: string, k: MediaKind): (comps: seq<string>)
    requires StartsWith(url, Prefix(k))
    ensures forall i :: 0 <= i < |comps| ==> '/' !in comps[i]
  {
    Split(url[|Prefix(k)|..], '/')
  }

  lemma PiecesJoin(url: string, k: MediaKind)
    requires StartsWith(url, Prefix(k))
    ensures url == Prefix(k) + Join(Pieces(url, k), "/")
  {
    var rest := url[|Prefix(k)|..];
    SplitJoin(rest, '/');
    assert url == url[..|Prefix(k)|] + rest;
  }

  lemma Join3(a: string, b: string, c: string)
    ensures Join([a, b, c], "/") == a + "/" + b + "/" + c
  {
    JoinCons(b, [c], "/");
    assert [b] + [c] == [b, c];
    JoinCons(a, [b, c], "/");
    assert [a] + [b, c] == [a, b, c];
  }

  lemma Join4(a: string, b: string, c: string, d: string)
    ensures Join([a, b, c, d], "/") == a + "/" + b + "/" + c + "/" + d
  {
    Join3(b, c, d);
    JoinCons(a, [b, c, d], "/");
    assert [a] + [b, c, d] == [a, b, c, d];
  }

  /** Composing an image URL from its pieces and decomposing it gives the pieces back. */
  lemma ImageRoundTrip(messageId: string, mediaId: string, filename: string)
    requires '/' !in messageId && '/' !in mediaId && '/' !in filename
    ensures Decompose(ImagePrefix + (messageId + "/" + mediaId + "/" + filename), messageId)
      == Success(MediaParts(Image, mediaId, filename))
  {
    var url := ImagePrefix + (messageId + "/" + mediaId + "/" + filename);
    var rest := messageId + "/" + mediaId + "/" + filename;
    assert url[..|ImagePrefix|] == ImagePrefix && url[|ImagePrefix|..] == rest;
    var parts := [messageId, mediaId, filename];
    Join3(messageId, mediaId, filename);
    JoinSplit(parts, '/');
  }

  /** The same for a gif URL. */
  lemma GifRoundTrip(mediaId: string, filename: string, messageId: string)
    requires '/' !in mediaId && '/' !in filename
    ensures Decompose(GifPrefix + (mediaId + "/" + filename), messageId)
      == Success(MediaParts(Gif, mediaId, filename))
  {
    var url := GifPrefix + (mediaId + "/" + filename);
    var rest := mediaId + "/" + filename;
    assert url[..|GifPrefix|] == GifPrefix && url[|GifPrefix|..] == rest;
    assert url[8] == 'v' != ImagePrefix[8];
    var parts := [mediaId, filename];
    JoinCons(mediaId, [filename], "/");
    assert [mediaId] + [filename] == parts;
    JoinSplit(parts, '/');
  }

  /** The same for a video URL, whose two middle pieces are dropped. */
  lemma VideoRoundTrip(mediaId: string, a: string, b: string, filename: string, messageId: string)
    requires '/' !in mediaId && '/' !in a && '/' !in b && '/' !in filename
    ensures Decompose(VideoPrefix + (mediaId + "/" + a + "/" + b + "/" + filename), messageId)
      == Success(MediaParts(Video, mediaId, filename))
  {
    var url := VideoPrefix + (mediaId + "/" + a + "/" + b + "/" + filename);
    var rest := mediaId + "/" + a + "/" + b + "/" + filename;
    assert url[..|VideoPrefix|] == VideoPrefix && url[|VideoPrefix|..] == rest;
    assert url[8] == 'v' != ImagePrefix[8];
    assert url[27] == 'v' != GifPrefix[27];
    var parts := [mediaId, a, b, filename];
    Join4(mediaId, a, b, filename);
    JoinSplit(parts, '/');
  }
}
