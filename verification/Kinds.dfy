/** The content type an entry is listed under, as a rule over all its mime types. */
module Kinds {
  import opened Common
  import opened Tables
  import opened History

  ghost predicate Has(items: seq<Item>, k: ContentKind) {
    exists i :: 0 <= i < |items| && KindOf(items[i].mime) == k
  }

  ghost predicate HasPlain(items: seq<Item>) {
    exists i :: 0 <= i < |items| && PlainText(items[i].mime)
  }

  /** The mime type at i is the first of its kind. */
  ghost predicate First(items: seq<Item>, i: int, k: ContentKind) {
    0 <= i < |items| && KindOf(items[i].mime) == k && forall j :: 0 <= j < i ==> KindOf(items[j].mime) != k
  }

  ghost predicate LastPlain(items: seq<Item>, i: int) {
    0 <= i < |items| && PlainText(items[i].mime) && forall j :: i < j < |items| ==> !PlainText(items[j].mime)
  }

  /** Plain text is text. */
  lemma PlainIsText(mime: Mime)
    requires PlainText(mime)
    ensures KindOf(mime) == Text
  {
    var text, image := Ascii("text/"), Ascii("image/");
    var a, b := Ascii("text/plain"), Ascii("text/plain;charset=utf-8");
    assert a[..5] == text && b[..5] == text;
    assert mime[0] == text[0] && image[0] != text[0];
  }

  /** The rule: an image beats text, text beats the rest; the first of its kind, but the last plain text. */
  ghost predicate Rule(items: seq<Item>, c: Content) {
    if Has(items, Image) then c.kind == Image && exists i :: First(items, i, Image) && c.mime == items[i].mime
    else if HasPlain(items) then c.kind == Text && exists i :: LastPlain(items, i) && c.mime == items[i].mime
    else if Has(items, Text) then c.kind == Text && exists i :: First(items, i, Text) && c.mime == items[i].mime
    else if items != [] then c == Content(Binary, items[0].mime)
    else c == Content(ContentKind.Unknown, [])
  }

  /** Looking at the mime types one by one, as they are received, gives what the rule says. */
  lemma {:induction false} ChosenIsRule(items: seq<Item>)
    ensures Rule(items, Chosen(items))
  {
    if items != [] {
      var n := |items| - 1;
      var front, last := items[..n], items[n];
      ChosenIsRule(front);
      assert forall i :: 0 <= i < n ==> front[i] == items[i];
      if PlainText(last.mime) {
        PlainIsText(last.mime);
        assert LastPlain(items, n);
      }
      OneMore(items, front, last, Chosen(front));
    }
  }

  lemma HasMore(items: seq<Item>, front: seq<Item>, last: Item)
    requires items == front + [last]
    ensures forall k :: Has(items, k) <==> Has(front, k) || k == KindOf(last.mime)
    ensures HasPlain(items) <==> HasPlain(front) || PlainText(last.mime)
  {
    var n := |front|;
    assert items[n] == last && forall i :: 0 <= i < n ==> items[i] == front[i];
  }

  lemma OneMore(items: seq<Item>, front: seq<Item>, last: Item, c: Content)
    requires items == front + [last] && Rule(front, c)
    requires PlainText(last.mime) ==> KindOf(last.mime) == Text
    ensures Rule(items, Consider(c, last.mime))
  {
    var n, k := |front|, KindOf(last.mime);
    assert items[n] == last && forall i :: 0 <= i < n ==> items[i] == front[i];
    HasMore(items, front, last);
    if Has(front, Image) {
      var i :| First(front, i, Image) && c.mime == front[i].mime;
      assert First(items, i, Image);
    } else if k == Image {
      assert First(items, n, Image);
    } else if PlainText(last.mime) {
      assert LastPlain(items, n);
    } else if HasPlain(front) {
      var i :| LastPlain(front, i) && c.mime == front[i].mime;
      assert LastPlain(items, i);
    } else if Has(front, Text) {
      var i :| First(front, i, Text) && c.mime == front[i].mime;
      assert First(items, i, Text);
    } else if k == Text {
      assert First(items, n, Text);
    }
  }

  /** Whether a mime type is of a family, by what stands in front of the first slash. */
  ghost predicate OfFamily(mime: Mime, family: string) {
    exists rest :: mime == Ascii(family) + Ascii("/") + rest
  }

  /** Images and texts are told by their family; all else is binary. */
  lemma KindIsFamily(mime: Mime)
    ensures KindOf(mime) == Image <==> OfFamily(mime, "image")
    ensures KindOf(mime) == Text <==> OfFamily(mime, "text")
    ensures KindOf(mime) != ContentKind.Unknown
  {
    var image, text := Ascii("image/"), Ascii("text/");
    assert Ascii("image") + Ascii("/") == image && Ascii("text") + Ascii("/") == text;
    assert image[0] != text[0];
    if image <= mime {
      assert mime == image + mime[|image|..];
    }
    if text <= mime {
      assert mime == text + mime[|text|..];
    }
  }
}
