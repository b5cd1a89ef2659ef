/**
 The aliases the generator makes, and exactly when a set of them can be told apart in running
 text. `_new_alias` writes an entity kind, a hyphen and eight characters of `A-Z0-9`.
 */
module Aliases {
  import opened Substitution

  datatype Kind =
    Project | User | Cluster | Group | GroupTag | Aggregate | Volume | Qtree | Host | Ambiguous

  function Label(k: Kind): Text {
    match k
    case Project => "项目"
    case User => "用户"
    case Cluster => "集群"
    case Group => "项目组"
    case GroupTag => "项目组标签"
    case Aggregate => "容量池"
    case Volume => "存储空间"
    case Qtree => "Qtree"
    case Host => "主机"
    case Ambiguous => "资源"
  }

  const SUFFIX_LENGTH: nat := 8

  predicate SuffixChar(c: char) {
    'A' <= c <= 'Z' || '0' <= c <= '9'
  }

  predicate IsTail(tail: Text) {
    |tail| == SUFFIX_LENGTH && forall i | 0 <= i < |tail| :: SuffixChar(tail[i])
  }

  function AliasText(kind: Kind, tail: Text): (a: Text)
  {
    Label(kind) + "-" + tail
  }

  ghost predicate MadeFrom(a: Text, kind: Kind, tail: Text) {
    IsTail(tail) && a == AliasText(kind, tail)
  }

  ghost predicate Generated(a: Text) {
    exists kind, tail :: MadeFrom(a, kind, tail)
  }

  ghost predicate AllGenerated(aliases: seq<Text>) {
    forall a | a in aliases :: Generated(a)
  }

  /** Some alias ends in Q while some alias is of the kind whose label starts with Q. */
  ghost predicate QHazard(aliases: seq<Text>) {
    && (exists a :: a in aliases && a != "" && a[|a| - 1] == 'Q')
    && (exists b :: b in aliases && b != "" && b[0] == 'Q')
  }

  // ------------------------------------------------------------ the shape of an alias

  /** The characters an alias can begin with. */
  predicate IsHead(c: char) {
    c in "项用集容存Q主资"
  }

  lemma LabelStart(k: Kind)
    ensures |Label(k)| >= 2 && IsHead(Label(k)[0])
    ensures Label(k)[0] == 'Q' <==> k == Qtree
  {
    match k
    case Project => case User => case Cluster => case Group => case GroupTag =>
    case Aggregate => case Volume => case Qtree => case Host => case Ambiguous =>
  }

  lemma LabelIsUnmarked(k: Kind)
    ensures forall i | 0 <= i < |Label(k)| :: Label(k)[i] !in "-#$%"
  {
    match k
    case Project => case User => case Cluster => case Group => case GroupTag =>
    case Aggregate => case Volume => case Qtree => case Host => case Ambiguous =>
  }

  lemma LabelRest(k: Kind)
    ensures forall i | 0 < i < |Label(k)| :: !IsHead(Label(k)[i])
  {
    match k
    case Project => case User => case Cluster => case Group => case GroupTag =>
    case Aggregate => case Volume => case Qtree => case Host => case Ambiguous =>
  }

  lemma LabelShape(k: Kind)
    ensures |Label(k)| >= 2 && IsHead(Label(k)[0])
    ensures Label(k)[0] == 'Q' <==> k == Qtree
    ensures forall i | 0 <= i < |Label(k)| :: Label(k)[i] !in "-#$%"
    ensures forall i | 0 < i < |Label(k)| :: !IsHead(Label(k)[i])
  {
    hide Label, IsHead;
    LabelStart(k);
    LabelIsUnmarked(k);
    LabelRest(k);
  }

  lemma SuffixCharIsHead(c: char)
    requires SuffixChar(c)
    ensures IsHead(c) <==> c == 'Q'
    ensures c !in "-#$%"
  {}

  /** Inside an alias a head character is a Q of the tail; at its end, or followed by no `t`. */
  lemma HeadInside(a: Text, k: nat)
    requires Generated(a) && 0 < k < |a| && IsHead(a[k])
    ensures a[k] == 'Q'
    ensures k < |a| - 1 ==> a[k + 1] != 't'
  {
    var kind, tail :| MadeFrom(a, kind, tail);
    LabelShape(kind);
    if k > |Label(kind)| {
      SuffixCharIsHead(tail[k - |Label(kind)| - 1]);
    }
  }

  lemma AliasShape(a: Text)
    requires Generated(a)
    ensures |a| >= 11 && IsHead(a[0])
    ensures forall i | 0 <= i < |a| :: a[i] !in "#$%"
    ensures a[0] == 'Q' ==> |a| == 14 && a[1] == 't'
    ensures a[|a| - 1] != 't'
  {
    var kind, tail :| MadeFrom(a, kind, tail);
    LabelShape(kind);
    forall i | 0 <= i < |a|
      ensures a[i] !in "#$%"
    {
      if i > |Label(kind)| { SuffixCharIsHead(tail[i - |Label(kind)| - 1]); }
    }
    assert a[|a| - 1] == tail[7];
  }

  lemma GeneratedAreNonEmpty(aliases: seq<Text>)
    requires AllGenerated(aliases)
    ensures NonEmpty(aliases)
  {
    forall a | a in aliases ensures a != "" { AliasShape(a); }
  }

  /** No generated alias is a prefix of another one. */
  lemma PrefixIsEqual(a: Text, b: Text)
    requires Generated(a) && Generated(b) && Comparable(a, b)
    ensures a == b
  {
    var ka, ta :| MadeFrom(a, ka, ta);
    var kb, tb :| MadeFrom(b, kb, tb);
    LabelShape(ka);
    LabelShape(kb);
    var la, lb := |Label(ka)|, |Label(kb)|;
    assert a[la] == '-' && b[lb] == '-';
    assert forall i | 0 <= i < la :: a[i] != '-';
    assert forall i | 0 <= i < lb :: b[i] != '-';
    assert la == lb;
    assert |a| == |b|;
  }

  /** The only way an alias can begin inside a generated alias: on a final Q. */
  lemma BeginsInsideOnlyAtFinalQ(a: Text, k: nat, b: Text)
    requires Generated(a) && Generated(b) && 0 < k < |a|
    requires Comparable(a[k..], b)
    ensures k == |a| - 1 && a[k] == 'Q' && b[0] == 'Q'
  {
    AliasShape(b);
    assert a[k..][0] == b[0];
    HeadInside(a, k);
  }

  /** Generated aliases are cross-free exactly when the two kinds of Q do not meet. */
  lemma {:induction false} CrossFreeIff(aliases: seq<Text>)
    requires AllGenerated(aliases)
    ensures CrossFree(aliases) <==> !QHazard(aliases)
  {
    forall a | a in aliases
      ensures a != ""
    {
      AliasShape(a);
    }
    if QHazard(aliases) {
      var a :| a in aliases && a != "" && a[|a| - 1] == 'Q';
      var b :| b in aliases && b != "" && b[0] == 'Q';
      AliasShape(a);
      var k: nat := |a| - 1;
      assert a[k..] == ['Q'];
      assert Comparable(a[k..], b);
    } else {
      forall a, b, k: nat | a in aliases && b in aliases && k < |a| && (k > 0 || a != b)
        ensures !Comparable(a[k..], b)
      {
        if Comparable(a[k..], b) {
          if k == 0 {
            assert a[0..] == a;
            PrefixIsEqual(a, b);
          } else {
            BeginsInsideOnlyAtFinalQ(a, k, b);
          }
          assert false;
        }
      }
    }
  }
}
