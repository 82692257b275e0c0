/** What processImage promises: which content types are accepted and with
    which extension, and that a conversion succeeds only when every inline
    image of the document has an accepted type. */
module ImageRegistry {
  import opened Strings
  import opened Document
  import opened Render
  import opened Traversal
  import opened Blocks

  lemma SuffixChar(c: string, p: string, i: nat)
    requires EndsWith(c, p) && i < |p|
    ensures c[|c| - |p| + i] == p[i]
  {
    assert c[|c| - |p|..][i] == p[i];
  }

  /** No content type matches two of the patterns. */
  lemma SuffixesExclusive(c: string)
    ensures !(EndsWith(c, "/png") && EndsWith(c, "/gif"))
    ensures !(EndsWith(c, "/png") && (EndsWith(c, "/jpeg") || EndsWith(c, "/jpg")))
    ensures !(EndsWith(c, "/gif") && (EndsWith(c, "/jpeg") || EndsWith(c, "/jpg")))
  {
    if EndsWith(c, "/png") {
      SuffixChar(c, "/png", 0);
      SuffixChar(c, "/png", 1);
      SuffixChar(c, "/png", 3);
      if EndsWith(c, "/gif") {
        SuffixChar(c, "/gif", 3);
      }
      if EndsWith(c, "/jpeg") {
        SuffixChar(c, "/jpeg", 1);
      }
    }
    if EndsWith(c, "/gif") {
      SuffixChar(c, "/gif", 3);
    }
  }

  /** The three patterns can never match the same content type, so the order
      in which they are tried does not matter: each extension is chosen
      exactly when its own pattern matches, and a type matching none of them
      is refused. */
  lemma ExtensionBySuffix(contentType: string)
    ensures ImageExtension(contentType) == Some(".png") <==> EndsWith(contentType, "/png")
    ensures ImageExtension(contentType) == Some(".gif") <==> EndsWith(contentType, "/gif")
    ensures ImageExtension(contentType) == Some(".jpg")
            <==> EndsWith(contentType, "/jpeg") || EndsWith(contentType, "/jpg")
    ensures ImageExtension(contentType) == None
            <==> !EndsWith(contentType, "/png") && !EndsWith(contentType, "/gif")
                 && !EndsWith(contentType, "/jpeg") && !EndsWith(contentType, "/jpg")
  {
    SuffixesExclusive(contentType);
    assert ".png" != ".gif" by { assert ".png"[1] != ".gif"[1]; }
    assert ".png" != ".jpg" by { assert ".png"[1] != ".jpg"[1]; }
    assert ".gif" != ".jpg" by { assert ".gif"[1] != ".jpg"[1]; }
  }

  /** A successful conversion met only inline images of an accepted type;
      a document holding any other image is not converted at all. */
  lemma ConvertNeedsSupportedImages(body: seq<Node>)
    ensures Convert(body).Ok? ==>
              forall k :: 0 <= k < |ImagesInSeq(body)| ==> ImageExtension(ImagesInSeq(body)[k].0).Some?
  {
    if Convert(body).Ok? {
      ConvertImages(body);
      var images := Convert(body).value.images;
      forall k | 0 <= k < |ImagesInSeq(body)|
        ensures ImageExtension(ImagesInSeq(body)[k].0).Some?
      {
        PayloadsAt(images, k);
      }
    }
  }

  /** The payload at position `k` is that of the `k`-th entry. */
  lemma {:induction false} PayloadsAt(entries: seq<ImageEntry>, k: nat)
    requires k < |entries|
    ensures Payloads(entries)[k] == (entries[k].contentType, entries[k].blob)
    decreases |entries|
  {
    if k < |entries| - 1 {
      PayloadsAt(entries[..|entries| - 1], k);
    }
  }

  /** A PNG met while the registry is empty is registered as `Image_0.png`. */
  lemma FirstPng(blob: seq<byte>, st: State)
    requires st.images == []
    ensures var name := "Image_" + "0" + ".png";
            RenderItem(InlineImage("image/png", blob), st)
            == Ok(Rendered(ImageTag(name), st.(images := [ImageEntry(blob, "image/png", name)])))
  {
    assert ImageExtension("image/png") == Some(".png") by {
      assert "image/png"[5..] == "/png";
    }
    assert Decimal(0) == "0";
    assert [] + [ImageEntry(blob, "image/png", "Image_" + "0" + ".png")] == [ImageEntry(blob, "image/png", "Image_" + "0" + ".png")];
  }

  /** The first image of a document, a PNG, inside a normal paragraph. */
  lemma FirstImage(blob: seq<byte>)
    ensures var name := "Image_" + "0" + ".png";
            Convert([Paragraph(Normal, [InlineImage("image/png", blob)])])
            == Ok(Conversion("<p>" + ("<img src=\"cid:" + name + "\" />") + "</p>",
                             [ImageEntry(blob, "image/png", name)]))
  {
    var name := "Image_" + "0" + ".png";
    var img := InlineImage("image/png", blob);
    FirstPng(blob, EmptyState);
    var r := Rendered(ImageTag(name), EmptyState.(images := [ImageEntry(blob, "image/png", name)]));
    SingleChildParagraph(img, EmptyState, r);
    SingleChildBody(Paragraph(Normal, [img]), Rendered("<p>" + r.html + "</p>", r.state));
  }

  /** An unsupported image type stops the conversion with that type. */
  lemma BitmapRefused(blob: seq<byte>)
    ensures Convert([InlineImage("image/bmp", blob)]) == Err(UnsupportedImageType("image/bmp"))
  {
    ExtensionBySuffix("image/bmp");
    assert !EndsWith("image/bmp", "/png") by { assert "image/bmp"[5..][1] == 'b'; }
    assert !EndsWith("image/bmp", "/gif") by { assert "image/bmp"[5..][1] == 'b'; }
    assert !EndsWith("image/bmp", "/jpg") by { assert "image/bmp"[5..][1] == 'b'; }
    assert !EndsWith("image/bmp", "/jpeg") by { assert "image/bmp"[4..][0] == 'e'; }
    assert ImageExtension("image/bmp") == None;
    var img := InlineImage("image/bmp", blob);
    assert RenderItem(img, EmptyState) == Err(UnsupportedImageType("image/bmp"));
    assert [img][..0] == [];
    assert RenderSeq([img], EmptyState) == Err(UnsupportedImageType("image/bmp"));
  }
}
