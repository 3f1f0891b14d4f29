/** The UUri printer and parser. */
module UriText {
  import opened Datamodel
  import opened Hex
  import opened UriValidator

  /** std::invalid_argument, or InvalidUUri with the validator's reason. */
  datatype Failure = BadSyntax | Rejected(reason: Option<Reason>)
  datatype Result<T> = Ok(value: T) | Err(failure: Failure)

  // ---------------------------------------------------------------- printing

  function Numbers(u: UUri): string {
    "/" + Upper(u.ueId) + "/" + Upper(u.version) + "/" + Upper(u.resource)
  }

  function Text(u: UUri): string {
    if IsLocal(u) then Numbers(u) else "//" + u.authority + Numbers(u)
  }

  method Serialize(u: UUri) returns (r: Result<string>)
    ensures r == if IsValidFilter(u).ok then Ok(Text(u)) else Err(Rejected(IsValidFilter(u).reason))
  {
    var verdict := IsValidFilter(u);
    if !verdict.ok {
      return Err(Rejected(verdict.reason));
    }
    var ss := "";
    if !IsLocal(u) {
      ss := ss + "//" + u.authority;
    }
    ss := ss + "/" + Upper(u.ueId) + "/" + Upper(u.version) + "/" + Upper(u.resource);
    assert IsLocal(u) ==> ss == Numbers(u);
    assert !IsLocal(u) ==> ss == "//" + u.authority + Numbers(u);
    return Ok(ss);
  }

  // ---------------------------------------------------------------- parsing

  /** A segment and what follows its separator. */
  function Segment(s: string): Option<(string, string)> {
    if s == [] then None
    else if s[0] == '/' then Some(("", s[1..]))
    else
      match Segment(s[1..])
      case None => None
      case Some((seg, rest)) => Some(([s[0]] + seg, rest))
  }

  function Number(s: string): Option<Word32> {
    if s != [] && AllHex(s) && Value(s) < 0x1_0000_0000 then Some(Value(s)) else None
  }

  function Authority(s: string): Option<(string, string)> {
    if "up://" <= s then Segment(s[5..])
    else if "//" <= s then Segment(s[2..])
    else if "/" <= s then Some(("", s[1..]))
    else None
  }

  function NumberSegment(s: string): Option<(Word32, string)> {
    match Segment(s)
    case None => None
    case Some((seg, rest)) =>
      match Number(seg)
      case None => None
      case Some(n) => Some((n, rest))
  }

  function Fields(s: string): Option<UUri> {
    match Authority(s) case None => None case Some((authority, s1)) =>
    match NumberSegment(s1) case None => None case Some((ueId, s2)) =>
    match NumberSegment(s2) case None => None case Some((version, s3)) =>
    match Number(s3) case None => None case Some(resource) =>
      Some(UUri(authority, ueId, version, resource))
  }

  function Parse(s: string): Result<UUri> {
    match Fields(s)
    case None => Err(BadSyntax)
    case Some(u) => if IsValidFilter(u).ok then Ok(u) else Err(Rejected(IsValidFilter(u).reason))
  }

  lemma {:induction false} SegmentOf(seg: string, rest: string)
    requires '/' !in seg
    ensures Segment(seg + "/" + rest) == Some((seg, rest))
  {
    var s := seg + "/" + rest;
    if seg == "" {
      assert s[1..] == rest;
    } else {
      SegmentOf(seg[1..], rest);
      assert s[1..] == seg[1..] + "/" + rest;
      assert [s[0]] + seg[1..] == seg;
    }
  }

  lemma {:induction false} SegmentSplits(s: string)
    ensures match Segment(s)
      case None => '/' !in s
      case Some((seg, rest)) => '/' !in seg && s == seg + "/" + rest
  {
    if s != [] {
      if s[0] != '/' { SegmentSplits(s[1..]); }
      assert s == [s[0]] + s[1..];
    }
  }

  /** `extractSegment`: the text before the first separator, and the view moved past it. */
  method ExtractSegment(view: string) returns (segment: Option<string>, rest: string)
    ensures match Segment(view)
      case None => segment == None && rest == view
      case Some((seg, r)) => segment == Some(seg) && rest == r
  {
    var end := 0;
    while end < |view| && view[end] != '/'
      invariant end <= |view|
      invariant '/' !in view[..end]
    {
      end := end + 1;
    }
    if end == |view| {
      assert view[..end] == view;
      SegmentSplits(view);
      return None, view;
    }
    segment, rest := Some(view[..end]), view[end + 1..];
    SegmentOf(view[..end], rest);
    assert view == view[..end] + "/" + rest;
  }

  lemma {:induction false} ValueGrows(s: string, i: nat)
    requires AllHex(s) && i <= |s|
    ensures Value(s[..i]) <= Value(s)
    decreases |s| - i
  {
    if i < |s| {
      ValueGrows(s, i + 1);
      assert s[..i + 1][..i] == s[..i];
    } else {
      assert s[..i] == s;
    }
  }

  /** `segmentToUint32`: base-16 std::from_chars over the whole segment. */
  method SegmentToUint32(segment: string) returns (value: Option<Word32>)
    ensures value == Number(segment)
  {
    if segment == [] {
      return None;
    }
    var v: nat, i := 0, 0;
    while i < |segment|
      invariant i <= |segment| && AllHex(segment[..i])
      invariant v == Value(segment[..i]) && v < 0x1_0000_0000
    {
      if !IsHexDigit(segment[i]) {
        return None;
      }
      assert segment[..i + 1][..i] == segment[..i];
      v := 16 * v + DigitValue(segment[i]);
      i := i + 1;
      if v >= 0x1_0000_0000 {
        if AllHex(segment) { ValueGrows(segment, i); }
        return None;
      }
    }
    assert segment[..i] == segment;
    return Some(v);
  }

  method Deserialize(s: string) returns (r: Result<UUri>)
    ensures r == Parse(s)
  {
    var view := s;
    var authority := "";
    if "up://" <= view {
      view := view[5..];
      var segment;
      segment, view := ExtractSegment(view);
      if segment == None { return Err(BadSyntax); }
      authority := segment.value;
    } else if "//" <= view {
      view := view[2..];
      var segment;
      segment, view := ExtractSegment(view);
      if segment == None { return Err(BadSyntax); }
      authority := segment.value;
    } else if "/" <= view {
      view := view[1..];
    } else {
      return Err(BadSyntax);
    }
    assert Authority(s) == Some((authority, view));
    var ueId, version, resource;
    ueId, view := NextNumber(view);
    if ueId == None { return Err(BadSyntax); }
    version, view := NextNumber(view);
    if version == None { return Err(BadSyntax); }
    resource := SegmentToUint32(view);
    if resource == None { return Err(BadSyntax); }
    var u := UUri(authority, ueId.value, version.value, resource.value);
    assert Fields(s) == Some(u);
    var verdict := IsValidFilter(u);
    if !verdict.ok {
      return Err(Rejected(verdict.reason));
    }
    return Ok(u);
  }

  method NextNumber(view: string) returns (n: Option<Word32>, rest: string)
    ensures match NumberSegment(view)
      case None => n == None
      case Some((v, r)) => n == Some(v) && rest == r
  {
    var segment;
    segment, rest := ExtractSegment(view);
    if segment == None { return None, rest; }
    n := SegmentToUint32(segment.value);
  }
}
