/**
  The tag list of `initialize_upload`: when the row's `Tags` field is
  non-empty it is split on ',' (Python's `str.split(',')`, which keeps empty
  pieces); otherwise the video gets no tags (`None`).
*/
module Tags {
  import opened Wrappers

  const Separator: char := ','

  /** `s.split(sep)` with an explicit separator. */
  function Split(s: string, sep: char): (parts: seq<string>)
    ensures |parts| >= 1
    ensures forall p :: p in parts ==> sep !in p
    decreases |s|
  {
    if s == [] then [[]]
    else
      var rest := Split(s[1..], sep);
      if s[0] == sep then [[]] + rest
      else [[s[0]] + rest[0]] + rest[1..]
  }

  /** There is one more piece than there are separators in the field. */
  lemma {:induction false} SplitCount(s: string, sep: char)
    ensures |Split(s, sep)| == multiset(s)[sep] + 1
    decreases |s|
  {
    if s != [] {
      SplitCount(s[1..], sep);
      assert s == [s[0]] + s[1..];
    }
  }

  /** `sep.join(parts)` */
  function Join(parts: seq<string>, sep: char): string
    requires |parts| >= 1
  {
    if |parts| == 1 then parts[0] else parts[0] + [sep] + Join(parts[1..], sep)
  }

  /** Joining the pieces with the separator gives back the field. */
  lemma {:induction false} JoinSplit(s: string, sep: char)
    ensures Join(Split(s, sep), sep) == s
    decreases |s|
  {
    if s != [] {
      var rest := Split(s[1..], sep);
      JoinSplit(s[1..], sep);
      assert s == [s[0]] + s[1..];
      if s[0] == sep {
        assert Split(s, sep) == [[]] + rest;
        JoinCons([], rest, sep);
      } else {
        assert Split(s, sep) == [[s[0]] + rest[0]] + rest[1..];
        JoinPrepend(s[0], rest, sep);
      }
    }
  }

  lemma JoinCons(p: string, parts: seq<string>, sep: char)
    requires |parts| >= 1
    ensures Join([p] + parts, sep) == p + [sep] + Join(parts, sep)
  {
    assert ([p] + parts)[1..] == parts;
  }

  /** Extending the first piece by one character extends the join by it. */
  lemma JoinPrepend(c: char, parts: seq<string>, sep: char)
    requires |parts| >= 1
    ensures Join([[c] + parts[0]] + parts[1..], sep) == [c] + Join(parts, sep)
  {
    if |parts| > 1 {
      JoinCons([c] + parts[0], parts[1..], sep);
      JoinCons(parts[0], parts[1..], sep);
      assert parts == [parts[0]] + parts[1..];
    }
  }

  /** Splitting a join of separator-free pieces gives back the pieces. */
  lemma {:induction false} SplitJoin(parts: seq<string>, sep: char)
    requires |parts| >= 1
    requires forall p :: p in parts ==> sep !in p
    ensures Split(Join(parts, sep), sep) == parts
    decreases |parts|
  {
    if |parts| == 1 {
      SplitPiece(parts[0], [], sep);
      assert parts[0] + [] == parts[0] && parts == [parts[0]];
    } else {
      var tail := Join(parts[1..], sep);
      SplitJoin(parts[1..], sep);
      JoinCons(parts[0], parts[1..], sep);
      assert parts[0] + [sep] + tail == parts[0] + ([sep] + tail);
      SplitPiece(parts[0], [sep] + tail, sep);
      assert ([sep] + tail)[1..] == tail;
      assert parts == [parts[0]] + parts[1..];
    }
  }

  /** A separator-free prefix becomes the first piece of what follows it. */
  lemma {:induction false} SplitPiece(p: string, t: string, sep: char)
    requires sep !in p
    ensures t == [] ==> Split(p + t, sep) == [p]
    ensures t != [] && t[0] == sep ==> Split(p + t, sep) == [p] + Split(t[1..], sep)
    decreases |p|
  {
    if p != [] {
      SplitPiece(p[1..], t, sep);
      assert (p + t)[0] == p[0] && (p + t)[1..] == p[1..] + t;
      assert [p[0]] + p[1..] == p;
    } else {
      assert p + t == t;
    }
  }

  /**
    `tags` in `initialize_upload`: `None` when the field is missing or empty,
    otherwise the comma-separated pieces, in order, empty pieces included.
  */
  function Tags(keywords: Option<string>): (tags: Option<seq<string>>)
    ensures tags.None? <==> keywords.None? || keywords.value == ""
    ensures tags.Some? ==> |tags.value| == multiset(keywords.value)[Separator] + 1
    ensures tags.Some? ==> forall t :: t in tags.value ==> Separator !in t
    ensures tags.Some? ==> Join(tags.value, Separator) == keywords.value
  {
    match keywords
    case None => None
    case Some(field) =>
      if field == "" then None
      else
        JoinSplit(field, Separator);
        SplitCount(field, Separator);
        Some(Split(field, Separator))
  }

  lemma TagsExample()
    ensures Tags(Some("a,,b")) == Some(["a", "", "b"])
    ensures Tags(Some("")) == None
  {
    SplitJoin(["a", "", "b"], Separator);
    assert Join(["a", "", "b"], Separator) == "a,,b";
  }
}
