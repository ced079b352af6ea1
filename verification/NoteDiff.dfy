/** `save_note` of the Python client: one deletion and one insertion at the same index
    turn the old text into the new one, and no single splice deletes less. */
module NoteDiff {
  import opened Domain

  const BODY := "body"

  /** What the document engine does to the text of a note. */
  function Applied(text: string, m: Mutation): string {
    match m
    case TextInsert(container, index, inserted) =>
      if container == BODY && index <= |text| then text[..index] + inserted + text[index..] else text
    case TextDelete(container, index, length) =>
      if container == BODY && index + length <= |text| then text[..index] + text[index + length..] else text
    case _ => text
  }

  function AppliedAll(text: string, mutations: seq<Mutation>): string
    decreases |mutations|
  {
    if mutations == [] then text else AppliedAll(Applied(text, mutations[0]), mutations[1..])
  }

  predicate ChangesText(m: Mutation) { m.TextInsert? || m.TextDelete? }

  function Least(a: nat, b: nat): nat { if a < b then a else b }

  /** Common prefix and suffix that do not overlap, neither of which can be extended. */
  ghost predicate Trimmed(before: string, after: string, prefix: nat, suffix: nat) {
    && prefix + suffix <= Least(|before|, |after|)
    && before[..prefix] == after[..prefix]
    && before[|before| - suffix..] == after[|after| - suffix..]
    && (prefix < Least(|before|, |after|) ==> before[prefix] != after[prefix])
    && (prefix + suffix < Least(|before|, |after|) ==> before[|before| - suffix - 1] != after[|after| - suffix - 1])
  }

  lemma SuffixGrows(before: string, after: string, n: nat)
    requires n < Least(|before|, |after|) && before[|before| - n..] == after[|after| - n..]
    requires before[|before| - n - 1] == after[|after| - n - 1]
    ensures before[|before| - (n + 1)..] == after[|after| - (n + 1)..]
  {
  }

  /** The first scanning loop. */
  method CommonPrefix(before: string, after: string, limit: nat) returns (prefix: nat)
    requires limit <= |before| && limit <= |after|
    ensures prefix <= limit && before[..prefix] == after[..prefix]
    ensures prefix < limit ==> before[prefix] != after[prefix]
  {
    prefix := 0;
    while prefix < limit && before[prefix] == after[prefix]
      invariant prefix <= limit && before[..prefix] == after[..prefix]
    {
      assert before[..prefix + 1] == before[..prefix] + [before[prefix]];
      assert after[..prefix + 1] == after[..prefix] + [after[prefix]];
      prefix := prefix + 1;
    }
  }

  /** The second scanning loop. */
  method CommonSuffix(before: string, after: string, limit: nat) returns (suffix: nat)
    requires limit <= |before| && limit <= |after|
    ensures suffix <= limit && before[|before| - suffix..] == after[|after| - suffix..]
    ensures suffix < limit ==> before[|before| - suffix - 1] != after[|after| - suffix - 1]
  {
    suffix := 0;
    while suffix < limit && before[|before| - suffix - 1] == after[|after| - suffix - 1]
      invariant suffix <= limit && before[|before| - suffix..] == after[|after| - suffix..]
    {
      SuffixGrows(before, after, suffix);
      suffix := suffix + 1;
    }
  }

  /** The prefix first, then the suffix of what it leaves. */
  method Trim(before: string, after: string) returns (prefix: nat, suffix: nat)
    ensures Trimmed(before, after, prefix, suffix)
  {
    var limit := Least(|before|, |after|);
    prefix := CommonPrefix(before, after, limit);
    suffix := CommonSuffix(before, after, limit - prefix);
  }

  function Meta(title: string): seq<Mutation> {
    [MapSet("meta", "kind", String("note")), MapSet("meta", "title", String(title))]
  }

  /** Saving a note: the engine ends with the new text, and the text is left alone
      exactly when it did not change. */
  method SaveNote(before: string, title: string, after: string) returns (mutations: seq<Mutation>)
    ensures AppliedAll(before, mutations) == after
    ensures Meta(title) <= mutations
    ensures (forall i :: 2 <= i < |mutations| ==> ChangesText(mutations[i])) && (|mutations| == 2 <==> before == after)
  {
    var prefix, suffix := Trim(before, after);
    mutations := Meta(title);
    var removed := |before| - prefix - suffix;
    var inserted := after[prefix..|after| - suffix];
    ghost var kept := before[..prefix] + before[prefix + removed..];
    MetaLeavesText(before, title);
    if removed > 0 {
      AppliedSnoc(before, mutations, TextDelete(BODY, prefix, removed));
      mutations := mutations + [TextDelete(BODY, prefix, removed)];
    } else {
      assert kept == before;
    }
    assert AppliedAll(before, mutations) == kept;
    if inserted != [] {
      AppliedSnoc(before, mutations, TextInsert(BODY, prefix, inserted));
      mutations := mutations + [TextInsert(BODY, prefix, inserted)];
    }
    assert after == after[..prefix] + inserted + after[|after| - suffix..];
    assert kept[..prefix] == before[..prefix] && kept[prefix..] == before[|before| - suffix..];
  }

  lemma MetaLeavesText(text: string, title: string)
    ensures AppliedAll(text, Meta(title)) == text
  {
    AppliedSnoc(text, [Meta(title)[0]], Meta(title)[1]);
    AppliedSnoc(text, [], Meta(title)[0]);
    assert [] + [Meta(title)[0]] == [Meta(title)[0]];
    assert [Meta(title)[0]] + [Meta(title)[1]] == Meta(title);
  }

  lemma {:induction false} AppliedSnoc(text: string, mutations: seq<Mutation>, m: Mutation)
    ensures AppliedAll(text, mutations + [m]) == Applied(AppliedAll(text, mutations), m)
    decreases |mutations|
  {
    if mutations == [] {
      assert (mutations + [m])[1..] == [];
    } else {
      assert (mutations + [m])[1..] == mutations[1..] + [m];
      AppliedSnoc(Applied(text, mutations[0]), mutations[1..], m);
    }
  }

  /** Replacing `length` characters at `index` turns one text into the other. */
  ghost predicate Splice(before: string, after: string, index: nat, length: nat, inserted: string) {
    index + length <= |before| && after == before[..index] + inserted + before[index + length..]
  }

  /** No splice deletes, or inserts, fewer characters than the one the client sends. */
  lemma FewestCharacters(before: string, after: string, prefix: nat, suffix: nat, index: nat, length: nat,
          inserted: string)
    requires Trimmed(before, after, prefix, suffix) && Splice(before, after, index, length, inserted)
    ensures |before| - prefix - suffix <= length
    ensures |after| - prefix - suffix <= |inserted|
  {
  }
}
