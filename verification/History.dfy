/** History entries of TinyCTX/context.py, as the assembly pipeline passes them along. */
module History {
  import opened Outcomes

  datatype Role = User | Assistant | Tool | System

  datatype Content = Text(text: string) | Blocks(blocks: seq<string>)

  datatype ToolCall = ToolCall(id: string, name: string, arguments: string)

  datatype Entry = Entry(
    role: Role,
    content: Content,
    toolCalls: seq<ToolCall>,
    toolCallId: Option<string>,
    tags: set<string>,
    index: nat)

  function AllTags(xs: seq<Entry>): (tags: set<string>)
    ensures forall tag :: tag in tags <==> exists i :: 0 <= i < |xs| && tag in xs[i].tags
  {
    set i, tag | 0 <= i < |xs| && tag in xs[i].tags :: tag
  }

  lemma TagsOfConcat(xs: seq<Entry>, ys: seq<Entry>)
    ensures AllTags(xs + ys) == AllTags(xs) + AllTags(ys)
  {
    forall tag | tag in AllTags(xs) ensures tag in AllTags(xs + ys) {
      var i :| 0 <= i < |xs| && tag in xs[i].tags;
      assert (xs + ys)[i] == xs[i];
    }
    forall tag | tag in AllTags(ys) ensures tag in AllTags(xs + ys) {
      var i :| 0 <= i < |ys| && tag in ys[i].tags;
      assert (xs + ys)[|xs| + i] == ys[i];
    }
  }

  lemma TagsOfOne(e: Entry)
    ensures AllTags([e]) == e.tags
  {
    forall tag | tag in e.tags ensures tag in AllTags([e]) {
      assert [e][0] == e;
    }
  }
}
