/** Values shared by both adapters: optional captures, the outcome of a
    fetch (a page, or the message of the error it threw), generic
    order-preserving map and filter, and the Detail entity, whose shape the
    two adapters have in common. */
module Catalog {
  import opened JsText

  datatype Option<+T> = None | Some(value: T) {
    function GetOr(default: T): T
    {
      match this
      case Some(v) => v
      case None => default
    }
  }

  /** What an awaited fetch (and parsing its body) delivers: the scanned page,
      or the message of the exception it raised. */
  datatype Result<+T> = Ok(value: T) | Failed(message: Text)

  /** One series' metadata, as both adapters serialise it. */
  datatype Detail = Detail(description: Text, aliases: Text, airdate: Text)

  /** `s.map(f)`. */
  function Map<A, B>(f: A -> B, s: seq<A>): (r: seq<B>)
    ensures |r| == |s|
    ensures forall i :: 0 <= i < |s| ==> r[i] == f(s[i])
  {
    seq(|s|, i requires 0 <= i < |s| => f(s[i]))
  }

  /** `s.filter(p)`: the elements satisfying `p`, in their original order. */
  function Filter<A>(p: A -> bool, s: seq<A>): (r: seq<A>)
    ensures |r| <= |s|
    ensures forall i :: 0 <= i < |r| ==> p(r[i]) && r[i] in s
    ensures r == [] <==> forall i :: 0 <= i < |s| ==> !p(s[i])
  {
    if s == [] then []
    else if p(s[0]) then [s[0]] + Filter(p, s[1..])
    else Filter(p, s[1..])
  }

  /** Filtering a concatenation filters each part; this is what lets a loop
      that visits the elements one by one build the filtered sequence. */
  lemma {:induction false} FilterAppend<A>(p: A -> bool, s: seq<A>, t: seq<A>)
    ensures Filter(p, s + t) == Filter(p, s) + Filter(p, t)
  {
    if s == [] {
      assert s + t == t;
    } else {
      assert (s + t)[1..] == s[1..] + t;
      FilterAppend(p, s[1..], t);
    }
  }

  /** The step a push loop takes: one more element visited. */
  lemma FilterSnoc<A>(p: A -> bool, s: seq<A>, i: nat)
    requires i < |s|
    ensures Filter(p, s[..i + 1]) == Filter(p, s[..i]) + (if p(s[i]) then [s[i]] else [])
  {
    assert s[..i + 1] == s[..i] + [s[i]];
    FilterAppend(p, s[..i], [s[i]]);
  }

  /** Mapping one more element appends its image. */
  lemma MapSnoc<A, B>(f: A -> B, s: seq<A>, x: A)
    ensures Map(f, s + [x]) == Map(f, s) + [f(x)]
  {
  }

  /** The step of a loop that maps the elements it keeps. */
  lemma MapFilterSnoc<A, B>(f: A -> B, p: A -> bool, s: seq<A>, i: nat)
    requires i < |s|
    ensures Map(f, Filter(p, s[..i + 1])) == Map(f, Filter(p, s[..i])) + (if p(s[i]) then [f(s[i])] else [])
  {
    FilterSnoc(p, s, i);
    if p(s[i]) {
      MapSnoc(f, Filter(p, s[..i]), s[i]);
    }
  }
}
