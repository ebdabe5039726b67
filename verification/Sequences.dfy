module Sequences {

  // The first n elements, or all if there are fewer.
  function First<T>(s: seq<T>, n: nat): seq<T> {
    if |s| <= n then s else s[..n]
  }
}
