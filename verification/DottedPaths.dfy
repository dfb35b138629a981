/** Dotted field paths: `split(".")` and its inverse `join(".")`. */
module DottedPaths {
  /** `path.split('.')`. */
  function Split(path: string): (keys: seq<string>)
    ensures keys != []
    ensures forall k | k in keys :: '.' !in k
  {
    if path == "" then [""]
    else if path[0] == '.' then [""] + Split(path[1..])
    else var rest := Split(path[1..]); [[path[0]] + rest[0]] + rest[1..]
  }

  /** `keys.join('.')`. */
  function Join(keys: seq<string>): string
    requires keys != []
  {
    if |keys| == 1 then keys[0] else keys[0] + "." + Join(keys[1..])
  }

  lemma {:induction false} SplitPrefix(head: string, rest: string)
    requires '.' !in head
    ensures Split(head + "." + rest) == [head] + Split(rest)
  {
    var whole := head + "." + rest;
    if head == "" {
      assert whole[1..] == rest;
    } else {
      assert whole[1..] == head[1..] + "." + rest;
      SplitPrefix(head[1..], rest);
      assert whole[0] == head[0] && [head[0]] + head[1..] == head;
    }
  }

  lemma {:induction false} SplitPlain(head: string)
    requires '.' !in head
    ensures Split(head) == [head]
  {
    if head != "" {
      SplitPlain(head[1..]);
      assert [head[0]] + head[1..] == head;
    }
  }

  lemma {:induction false} SplitJoin(keys: seq<string>)
    requires keys != [] && forall k | k in keys :: '.' !in k
    ensures Split(Join(keys)) == keys
  {
    if |keys| == 1 {
      SplitPlain(keys[0]);
    } else {
      SplitJoin(keys[1..]);
      SplitPrefix(keys[0], Join(keys[1..]));
    }
  }
}
