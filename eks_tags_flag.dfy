/** The --eks-tags flag of the create-missing, delete-missing and sync
    commands: a list of KEY=VALUE entries folded into the tag selector map. */
module EksTagsFlag {
  import opened Common

  /** strings.Split: the pieces of s between occurrences of sep, always at
      least one. */
  function Split(s: string, sep: char): (r: seq<string>)
    ensures |r| >= 1
    ensures forall i | 0 <= i < |r| :: sep !in r[i]
    ensures |r| == 1 <==> sep !in s
    decreases |s|
  {
    if s == [] then [""]
    else
      var rest := Split(s[1..], sep);
      assert s == [s[0]] + s[1..];
      if s[0] == sep then [""] + rest
      else [[s[0]] + rest[0]] + rest[1..]
  }

  /** The pieces glued back together with sep between them. */
  function Join(parts: seq<string>, sep: char): string
    requires |parts| >= 1
    decreases |parts|
  {
    if |parts| == 1 then parts[0] else parts[0] + [sep] + Join(parts[1..], sep)
  }

  /** Joining the pieces gives back the string split. */
  lemma {:induction false} JoinSplit(s: string, sep: char)
    ensures Join(Split(s, sep), sep) == s
    decreases |s|
  {
    if s != [] {
      JoinSplit(s[1..], sep);
      var rest := Split(s[1..], sep);
      assert s == [s[0]] + s[1..];
      if s[0] != sep && |rest| > 1 {
        assert ([[s[0]] + rest[0]] + rest[1..])[1..] == rest[1..];
      }
    }
  }

  /** Splitting undoes joining when no piece holds the separator. */
  lemma {:induction false} SplitJoin(parts: seq<string>, sep: char)
    requires |parts| >= 1 && forall i | 0 <= i < |parts| :: sep !in parts[i]
    ensures Split(Join(parts, sep), sep) == parts
    decreases |parts|, |parts[0]|
  {
    if |parts[0]| == 0 {
      if |parts| > 1 {
        assert Join(parts, sep) == [sep] + Join(parts[1..], sep);
        assert (Join(parts, sep))[1..] == Join(parts[1..], sep);
        SplitJoin(parts[1..], sep);
        assert parts == [""] + parts[1..];
      }
    } else {
      var c := parts[0][0];
      var shorter := [parts[0][1..]] + parts[1..];
      assert Join(parts, sep) == [c] + Join(shorter, sep) by {
        if |parts| > 1 {
          assert parts[0] == [c] + parts[0][1..];
          assert shorter[1..] == parts[1..];
        }
      }
      assert Join(parts, sep)[1..] == Join(shorter, sep);
      SplitJoin(shorter, sep);
      assert parts == [[c] + shorter[0]] + shorter[1..];
    }
  }

  /** The key is the text before the first '=', and the value the text
      between the first and the second; anything after a second '=' is
      dropped. */
  lemma KeyAndValueOfEntry(key: string, value: string, rest: string)
    requires '=' !in key && '=' !in value
    ensures var split := Split(key + "=" + value, '=');
      |split| == 2 && split[0] == key && split[1] == value
    ensures var split := Split(key + "=" + value + "=" + rest, '=');
      |split| >= 3 && split[0] == key && split[1] == value
  {
    SplitJoin([key, value], '=');
    assert Join([key, value], '=') == key + "=" + value;
    var tail := Split(rest, '=');
    JoinSplit(rest, '=');
    SplitJoin([key, value] + tail, '=');
    assert Join([key, value] + tail, '=') == key + "=" + value + "=" + rest by {
      assert ([key, value] + tail)[1..] == [value] + tail;
      assert ([value] + tail)[1..] == tail;
    }
  }

  /** One entry read the way main.go reads it: the first piece is the key
      and the second the value; an entry without '=' has no second piece. */
  function EntryPair(kv: string): Option<(string, string)>
  {
    var split := Split(kv, '=');
    if |split| < 2 then None else Some((split[0], split[1]))
  }

  /** What the loop of main.go computes: each entry in turn sets the tag
      named by its key to its value, a later entry overwriting an earlier
      one; an entry without '=' makes the index of the second piece out of
      range. */
  function TagsFromFlags(entries: seq<string>): Result<map<string, string>, Error>
    decreases |entries|
  {
    if entries == [] then Success(map[])
    else
      match TagsFromFlags(entries[..|entries| - 1])
      case Failure(e) => Failure(e)
      case Success(tags) =>
        var kv := entries[|entries| - 1];
        match EntryPair(kv)
        case None => Failure(IndexOutOfRange(kv))
        case Some((k, v)) => Success(tags[k := v])
  }

  lemma TagsFromFlagsStep(entries: seq<string>)
    requires entries != [] && TagsFromFlags(entries).Success?
    ensures var n := |entries| - 1;
      TagsFromFlags(entries[..n]).Success? && EntryPair(entries[n]).Some?
      && TagsFromFlags(entries).value
         == TagsFromFlags(entries[..n]).value[EntryPair(entries[n]).value.0 := EntryPair(entries[n]).value.1]
  {
  }

  /** The parse fails iff some entry has no '='. */
  lemma {:induction false} TagsFromFlagsFails(entries: seq<string>)
    ensures TagsFromFlags(entries).Failure? <==> exists i | 0 <= i < |entries| :: EntryPair(entries[i]).None?
    decreases |entries|
  {
    if entries != [] {
      var n := |entries| - 1;
      TagsFromFlagsFails(entries[..n]);
      assert forall i | 0 <= i < n :: entries[..n][i] == entries[i];
    }
  }

  /** An entry has a value exactly when it holds '='. */
  lemma EntryPairDefined(kv: string)
    ensures EntryPair(kv).Some? <==> '=' in kv
  {
  }

  /** The key of an entry: the text before its first '='. */
  function KeyOf(kv: string): string
  {
    Split(kv, '=')[0]
  }

  /** The keys of the entries: those of all but the last, and the last one's. */
  lemma EntryKeysSnoc(entries: seq<string>)
    requires entries != []
    ensures var n := |entries| - 1;
      (set i | 0 <= i < |entries| :: KeyOf(entries[i]))
      == (set i | 0 <= i < n :: KeyOf(entries[..n][i])) + {KeyOf(entries[n])}
  {
    var n := |entries| - 1;
    var prefix := entries[..n];
    var all := set i | 0 <= i < |entries| :: KeyOf(entries[i]);
    var before := set i | 0 <= i < n :: KeyOf(prefix[i]);
    forall k | k in all
      ensures k in before || k == KeyOf(entries[n])
    {
      var i :| 0 <= i < |entries| && k == KeyOf(entries[i]);
      if i < n {
        assert prefix[i] == entries[i];
      }
    }
    forall k | k in before
      ensures k in all
    {
      var i :| 0 <= i < n && k == KeyOf(prefix[i]);
      assert prefix[i] == entries[i];
    }
  }

  /** A successful parse has one key per distinct entry key... */
  lemma {:induction false} TagsFromFlagsKeys(entries: seq<string>)
    requires TagsFromFlags(entries).Success?
    ensures TagsFromFlags(entries).value.Keys == (set i | 0 <= i < |entries| :: KeyOf(entries[i]))
    decreases |entries|
  {
    if entries != [] {
      TagsFromFlagsStep(entries);
      TagsFromFlagsKeys(entries[..|entries| - 1]);
      EntryKeysSnoc(entries);
    }
  }

  /** ... and each key holds the value of its last entry: a later entry with
      the same key overwrites an earlier one. */
  lemma {:induction false} TagsFromFlagsLastWins(entries: seq<string>, i: nat)
    requires TagsFromFlags(entries).Success?
    requires i < |entries| && EntryPair(entries[i]).Some?
    requires forall j | i < j < |entries| :: EntryPair(entries[j]).Some? ==> EntryPair(entries[j]).value.0 != EntryPair(entries[i]).value.0
    ensures EntryPair(entries[i]).value.0 in TagsFromFlags(entries).value
    ensures TagsFromFlags(entries).value[EntryPair(entries[i]).value.0] == EntryPair(entries[i]).value.1
    decreases |entries|
  {
    var n := |entries| - 1;
    var prefix := entries[..n];
    TagsFromFlagsStep(entries);
    if i < n {
      assert prefix[i] == entries[i];
      assert forall j | i < j < n :: prefix[j] == entries[j];
      TagsFromFlagsLastWins(prefix, i);
    }
  }

  /** No flag at all gives the empty selector, which keeps every cluster. */
  lemma NoFlagsSelectEverything(tags: map<string, string>)
    ensures TagsFromFlags([]) == Success(map[])
    ensures Selects(TagsFromFlags([]).value, tags)
  {
  }

  method ParseEksTags(entries: seq<string>) returns (r: Result<map<string, string>, Error>)
    ensures r == TagsFromFlags(entries)
  {
    var tags: map<string, string> := map[];
    var i := 0;
    while i < |entries|
      invariant 0 <= i <= |entries|
      invariant TagsFromFlags(entries[..i]) == Success(tags)
    {
      var kv := entries[i];
      var split := Split(kv, '=');
      assert entries[..i + 1][..i] == entries[..i];
      if |split| < 2 {
        assert TagsFromFlags(entries[..i + 1]).Failure?;
        TagsFailureSticks(entries, i + 1);
        return Failure(IndexOutOfRange(kv));
      }
      tags := tags[split[0] := split[1]];
      i := i + 1;
    }
    assert entries[..i] == entries;
    return Success(tags);
  }

  lemma {:induction false} TagsFailureSticks(entries: seq<string>, j: nat)
    requires j <= |entries| && TagsFromFlags(entries[..j]).Failure?
    ensures TagsFromFlags(entries) == TagsFromFlags(entries[..j])
    decreases |entries|
  {
    if j < |entries| {
      var prefix := entries[..|entries| - 1];
      assert prefix[..j] == entries[..j];
      TagsFailureSticks(prefix, j);
    } else {
      assert entries[..j] == entries;
    }
  }
}
