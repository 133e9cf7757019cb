/** The leaf-image file constraints shared by the page's dropzone and the upload
    card: a MIME type matching the regular expression `/^image\/(png|jpe?g)$/i`
    and a size of at most 10 MiB. */
module ImageType {
  import opened Base64

  /** A file handed over by the browser: its declared MIME type (`File.type`) and
      its bytes; `File.size` is the number of bytes. */
  datatype FileInfo = FileInfo(mimeType: string, content: seq<byte>)

  /** The size limit `10 * 1024 * 1024`. */
  const MaxUploadBytes: int := 10 * 1024 * 1024

  /** Case folding as a JavaScript regular expression with the `i` flag and without
      the `u` flag applies it: only ASCII letters fold, since a non-ASCII character
      never canonicalises to an ASCII one. */
  function Fold(c: char): char {
    if 'A' <= c <= 'Z' then (c as int + 32) as char else c
  }

  function FoldAll(s: string): (r: string)
    ensures |r| == |s|
    ensures forall i | 0 <= i < |s| :: r[i] == Fold(s[i])
  {
    seq(|s|, i requires 0 <= i < |s| => Fold(s[i]))
  }

  /** `a` matches the lower-case literal `lit` case-insensitively. */
  predicate MatchesLiteral(a: string, lit: string) {
    |a| == |lit| && forall i | 0 <= i < |a| :: Fold(a[i]) == lit[i]
  }

  /** The regular expression `/^image\/(png|jpe?g)$/i` matched by the structure of
      the pattern: the anchored prefix `image/`, then either `png` or `jp`
      followed by an optional `e` and a `g`, then the end of the text. */
  predicate MatchesImagePattern(t: string) {
    && |t| >= 6
    && MatchesLiteral(t[..6], "image/")
    && var rest := t[6..];
       || MatchesLiteral(rest, "png")
       || (&& |rest| >= 2
           && MatchesLiteral(rest[..2], "jp")
           && (MatchesLiteral(rest[2..], "eg") || MatchesLiteral(rest[2..], "g")))
  }

  /** The three MIME types the pattern is meant to admit, in lower case. */
  const AcceptedTypes: set<string> := {"image/png", "image/jpg", "image/jpeg"}

  lemma MatchesLiteralIsFoldedEquality(a: string, lit: string)
    ensures MatchesLiteral(a, lit) <==> FoldAll(a) == lit
  {
    if FoldAll(a) == lit {
      assert forall i | 0 <= i < |a| :: Fold(a[i]) == lit[i] by {
        forall i | 0 <= i < |a| ensures Fold(a[i]) == lit[i] {
          assert FoldAll(a)[i] == Fold(a[i]);
        }
      }
    }
  }

  lemma FoldAllSplit(t: string, k: nat)
    requires k <= |t|
    ensures FoldAll(t) == FoldAll(t[..k]) + FoldAll(t[k..])
  {
  }

  /** A folded text equals `head + tail` exactly when its first `|head|`
      characters fold to `head` and the others to `tail`. */
  lemma FoldedEqualsConcat(t: string, head: string, tail: string)
    ensures FoldAll(t) == head + tail <==>
      |t| >= |head| && FoldAll(t[..|head|]) == head && FoldAll(t[|head|..]) == tail
  {
    if |t| >= |head| {
      FoldAllSplit(t, |head|);
      var x, y := FoldAll(t[..|head|]), FoldAll(t[|head|..]);
      if x + y == head + tail {
        assert x == (x + y)[..|head|] == (head + tail)[..|head|] == head;
        assert y == (x + y)[|head|..] == (head + tail)[|head|..] == tail;
      }
    }
  }

  /** The pattern admits exactly `image/png`, `image/jpg` and `image/jpeg`, in any
      mix of letter case, and no other text. */
  lemma {:induction false} PatternAdmitsExactlyAcceptedTypes(t: string)
    ensures MatchesImagePattern(t) <==> FoldAll(t) in AcceptedTypes
  {
    FoldedEqualsConcat(t, "image/", "png");
    FoldedEqualsConcat(t, "image/", "jpg");
    FoldedEqualsConcat(t, "image/", "jpeg");
    assert "image/png" == "image/" + "png";
    assert "image/jpg" == "image/" + "jpg";
    assert "image/jpeg" == "image/" + "jpeg";
    if |t| >= 6 {
      var rest := t[6..];
      MatchesLiteralIsFoldedEquality(t[..6], "image/");
      MatchesLiteralIsFoldedEquality(rest, "png");
      FoldedEqualsConcat(rest, "jp", "g");
      FoldedEqualsConcat(rest, "jp", "eg");
      assert "jpg" == "jp" + "g";
      assert "jpeg" == "jp" + "eg";
      if |rest| >= 2 {
        MatchesLiteralIsFoldedEquality(rest[..2], "jp");
        MatchesLiteralIsFoldedEquality(rest[2..], "g");
        MatchesLiteralIsFoldedEquality(rest[2..], "eg");
      }
    }
  }

  /** Concrete cases: upper case is admitted; another image type, a longer
      type and the empty type are not. */
  lemma UpperCaseJpegAdmitted()
    ensures MatchesImagePattern("IMAGE/JPEG")
  {
    PatternAdmitsExactlyAcceptedTypes("IMAGE/JPEG");
    assert FoldAll("IMAGE/JPEG") == "image/jpeg";
  }

  lemma GifRejected()
    ensures !MatchesImagePattern("image/gif")
  {
    PatternAdmitsExactlyAcceptedTypes("image/gif");
    assert FoldAll("image/gif")[6] == 'g';
  }

  lemma LongerTypeRejected()
    ensures !MatchesImagePattern("image/jpegx")
  {
    PatternAdmitsExactlyAcceptedTypes("image/jpegx");
    assert |FoldAll("image/jpegx")| == 11;
  }

  lemma EmptyTypeRejected()
    ensures !MatchesImagePattern("")
  {
  }

  /** A type the pattern admits contains no comma, so it cannot disturb the
      comma that ends the header of a data URL. */
  lemma AdmittedTypeHasNoComma(t: string)
    requires MatchesImagePattern(t)
    ensures ',' !in t
  {
    PatternAdmitsExactlyAcceptedTypes(t);
  }

  /** The full acceptance rule `re.test(type) && !(size > 10 * 1024 * 1024)`. */
  predicate AcceptsTypeAndSize(mimeType: string, size: int) {
    MatchesImagePattern(mimeType) && !(size > MaxUploadBytes)
  }

  /** The size bound is inclusive: 10485760 bytes pass and 10485761 do not. */
  lemma SizeBoundary(mimeType: string)
    requires MatchesImagePattern(mimeType)
    ensures AcceptsTypeAndSize(mimeType, 10485760)
    ensures !AcceptsTypeAndSize(mimeType, 10485761)
  {
  }
}
