/** `urlFormat` (src/lib/url-format.ts): drops the path segment that holds the locale. */
module UrlFormat {
  import opened JsString

  /** The "/"-separated parts of a URL with the part at index 3 spliced out, when there is one. */
  function Spliced(parts: seq<string>): seq<string> {
    if |parts| > 3 then parts[..3] + parts[4..] else parts
  }

  /** `urlFormat(url)`. */
  function UrlFormat(url: string): (r: string)
    ensures Split(r, '/') == Spliced(Split(url, '/'))
    ensures |Split(url, '/')| <= 3 ==> r == url
    ensures |Split(url, '/')| > 3 ==> |r| < |url|
  {
    var parts := Split(url, '/');
    var kept := Spliced(parts);
    assert NoSep(kept, '/');
    SplitJoin(kept, '/');
    if |parts| > 3 then
      assert parts == parts[..3] + [parts[3]] + parts[4..];
      JoinLength(parts[..3], parts[3], parts[4..]);
      Join(kept, '/')
    else
      Join(kept, '/')
  }

  /** Removing a part from the middle of a join shortens it by the part and one separator. */
  lemma {:induction false} JoinLength(a: seq<string>, x: string, b: seq<string>)
    requires |a| >= 1
    ensures |Join(a + [x] + b, '/')| == |Join(a + b, '/')| + |x| + 1
  {
    if |a| == 1 {
      if |b| > 0 {
        assert (a + [x] + b)[1..] == [x] + b;
        assert ([x] + b)[1..] == b;
        assert (a + b)[1..] == b;
      }
    } else {
      assert (a + [x] + b)[1..] == a[1..] + [x] + b;
      assert (a + b)[1..] == a[1..] + b;
      JoinLength(a[1..], x, b);
    }
  }

  /** Part 0 (scheme), part 1 (empty) and part 2 (host) are always kept, and so is every part after index 3. */
  lemma KeepsSchemeHostAndTail(url: string)
    requires |Split(url, '/')| > 3
    ensures Split(UrlFormat(url), '/')[..3] == Split(url, '/')[..3]
    ensures Split(UrlFormat(url), '/')[3..] == Split(url, '/')[4..]
  {
  }

  /** The removal is unconditional: applied twice it drops two parts, so it is not idempotent. */
  lemma NotIdempotent(url: string)
    requires |Split(url, '/')| > 4
    ensures Split(UrlFormat(UrlFormat(url)), '/') == Split(url, '/')[..3] + Split(url, '/')[5..]
    ensures UrlFormat(UrlFormat(url)) != UrlFormat(url)
  {
    var parts := Split(url, '/');
    var once := Split(UrlFormat(url), '/');
    assert once == parts[..3] + parts[4..];
    assert once[..3] == parts[..3];
    assert once[4..] == parts[5..];
  }

  /** On a URL `scheme//host/segment/path`, the segment after the host is removed and the rest is kept. */
  lemma RemovesLocaleSegment(scheme: string, host: string, segment: string, path: string)
    requires '/' !in scheme && '/' !in host && '/' !in segment && '/' !in path
    ensures UrlFormat(scheme + "//" + host + "/" + segment + "/" + path) == scheme + "//" + host + "/" + path
  {
    var parts := [scheme, "", host, segment, path];
    assert Join(parts[4..], '/') == path;
    assert Join(parts[3..], '/') == segment + "/" + path;
    assert Join(parts[2..], '/') == host + "/" + segment + "/" + path;
    assert Join(parts[1..], '/') == "/" + host + "/" + segment + "/" + path;
    assert Join(parts, '/') == scheme + "//" + host + "/" + segment + "/" + path;
    assert NoSep(parts, '/');
    SplitJoin(parts, '/');
    var kept := [scheme, "", host, path];
    assert Spliced(parts) == kept;
    assert Join(kept[3..], '/') == path;
    assert Join(kept[2..], '/') == host + "/" + path;
    assert Join(kept[1..], '/') == "/" + host + "/" + path;
    assert Join(kept, '/') == scheme + "//" + host + "/" + path;
    assert NoSep(kept, '/');
    SplitJoin(kept, '/');
  }
}
