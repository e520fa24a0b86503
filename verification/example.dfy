/** A tree that meets every side condition: base rows marked and copied into a table, throwaway rows
    inserted into that table, and a view that prunes them again and takes the base table's name. */
module Example {
  import opened Bags
  import opened Expressions
  import opened Values
  import opened Queries
  import opened Graphs
  import opened Engine
  import opened Emission
  import opened Compile
  import opened Selects
  import opened Channels
  import opened Rules
  import opened Meaning
  import opened Rewrite
  import Builders

  const TAG := "eq_tag_1"

  function Marking(cols: seq<string>): Select { BaseSelect(Extended(cols, TagItem(TAG, 1))) }

  function Throwaway(cols: seq<string>): Select {
    BaseSelect(Extended(cols, TagItem(TAG, 0))).(filter := Some(Equals(Col(TAG), IntLiteral(1))))
  }

  function Tree(cols: seq<string>): Graph {
    [BaseTable, QueryNode(SelectQ(0, Marking(cols))), CreateTable("t_table_1", 1), InsertExtras(2, Throwaway(cols)),
     TagPrune("t", 3, Passthrough(cols), TAG, 1)]
  }

  function Specs(): seq<Spec> {
    [Rows(None), Tagged(TAG, 1), Tagged(TAG, 1), Tagged(TAG, 1), Rows(None)]
  }

  lemma TreeOrdered(cols: seq<string>)
    ensures Ordered(Tree(cols))
  {
    var g := Tree(cols);
    assert NodeOrdered(g, 0);
    assert NodeOrdered(g, 1);
    assert NodeOrdered(g, 2);
    assert NodeOrdered(g, 3);
    assert NodeOrdered(g, 4);
  }

  /** How the builders draw it. */
  function Drawn(): seq<Builders.Choice> {
    [Builders.Base, Builders.AQuery(Builders.OfChannel(Builders.MarkKept(0, TAG))), Builders.Table(1, "t_table_1"),
     Builders.InsertThrowaway(2, TAG), Builders.Prune(3, "t", TAG)]
  }

  /** The tree is one of those the builders draw, over every base table that does not use the synthesized
      names. */
  lemma TreeGenerated(base: Rel)
    requires Shaped(base) && TAG !in base.cols
    ensures Builders.Generated(base, Tree(base.cols), Specs(), Drawn())
  {
    Builders.SameItems(base.cols);
  }

  lemma TreeWellBuilt(base: Rel)
    requires Shaped(base) && TAG !in base.cols
    ensures WellBuilt(Tree(base.cols), base, Specs())
  {
    TreeGenerated(base);
    Builders.GeneratedWellBuilt(base, Tree(base.cols), Specs(), Drawn());
  }

  function Install(w: World, style: Style, base: Rel): Setup {
    Setup(w, style, Tree(base.cols), base, "t__base", [Entry("t__base", TableObject(base))])
  }

  lemma TreeReady(w: World, style: Style, base: Rel)
    ensures Ordered(Tree(base.cols)) && Ready(Install(w, style, base), Visit(Tree(base.cols), 4, {}))
  {
    var c := Install(w, style, base);
    var g := c.g;
    TreeOrdered(base.cols);
    assert BaseAt(c, c.prior, 0);
    assert |"t"| == 1 && |"t_table_1"| == 9 && |"t__base"| == 7;
    assert Children(g[1]) == [0] && Children(g[2]) == [1] && Children(g[3]) == [2] && Children(g[4]) == [3];
  }

  /** So the theorem applies to it: on any engine and in any style, installing it leaves t reading as
      the base table, although the table behind t was written to after it was filled. */
  lemma TreeHoldsBase(w: World, style: Style, base: Rel) returns (db: Database)
    requires Shaped(base) && TAG !in base.cols && QUALIFY_COLUMN !in base.cols
    ensures Started(Install(w, style, base)) && Below(Visit(Tree(base.cols), 4, {}), 5)
    ensures Run(w, [Entry("t__base", TableObject(base))], Script(Table(Install(w, style, base)), Visit(Tree(base.cols), 4, {}))) == Done(db)
    ensures Find(db, "t") < |db| && forall path :: ReadAt(w, path, db, Find(db, "t")) == base
  {
    var c := Install(w, style, base);
    TreeWellBuilt(base);
    TreeReady(w, style, base);
    db := RewriteCorrect(c, Specs(), 4);
    WhereNone(w, base);
  }
}
