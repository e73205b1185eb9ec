/** numpy ndarrays of rank 2 to 4 as nested sequences, and their shapes. */
module Arrays {

  type Field2<T> = seq<seq<T>>
  type Field3<T> = seq<seq<seq<T>>>
  type Field4<T> = seq<seq<seq<seq<T>>>>

  predicate Shape2<T>(a: Field2<T>, d0: nat, d1: nat) {
    |a| == d0 && forall x :: 0 <= x < d0 ==> |a[x]| == d1
  }

  predicate Shape3<T>(a: Field3<T>, d0: nat, d1: nat, d2: nat) {
    |a| == d0 && forall x :: 0 <= x < d0 ==> Shape2(a[x], d1, d2)
  }

  predicate Shape4<T>(a: Field4<T>, d0: nat, d1: nat, d2: nat, d3: nat) {
    |a| == d0 && forall x :: 0 <= x < d0 ==> Shape3(a[x], d1, d2, d3)
  }

  /** a[:, i, j], the values along the first axis at one grid point */
  function Column<T>(a: Field3<T>, i: nat, j: nat): (r: seq<T>)
    requires forall k :: 0 <= k < |a| ==> i < |a[k]| && j < |a[k][i]|
    ensures |r| == |a| && forall k :: 0 <= k < |a| ==> r[k] == a[k][i][j]
  {
    seq(|a|, k requires 0 <= k < |a| => a[k][i][j])
  }

  /** Two fields of the same shape with the same entries are equal. */
  lemma Ext2<T>(a: Field2<T>, b: Field2<T>, d0: nat, d1: nat)
    requires Shape2(a, d0, d1) && Shape2(b, d0, d1)
    requires forall x, y :: 0 <= x < d0 && 0 <= y < d1 ==> a[x][y] == b[x][y]
    ensures a == b
  {
    forall x | 0 <= x < d0 ensures a[x] == b[x] {
    }
  }

  lemma Ext3<T>(a: Field3<T>, b: Field3<T>, d0: nat, d1: nat, d2: nat)
    requires Shape3(a, d0, d1, d2) && Shape3(b, d0, d1, d2)
    requires forall x, y, z :: 0 <= x < d0 && 0 <= y < d1 && 0 <= z < d2 ==> a[x][y][z] == b[x][y][z]
    ensures a == b
  {
    forall x | 0 <= x < d0 ensures a[x] == b[x] {
      Ext2(a[x], b[x], d1, d2);
    }
  }

  lemma Ext4<T>(a: Field4<T>, b: Field4<T>, d0: nat, d1: nat, d2: nat, d3: nat)
    requires Shape4(a, d0, d1, d2, d3) && Shape4(b, d0, d1, d2, d3)
    requires forall x, y, z, w :: 0 <= x < d0 && 0 <= y < d1 && 0 <= z < d2 && 0 <= w < d3 ==>
               a[x][y][z][w] == b[x][y][z][w]
    ensures a == b
  {
    forall x | 0 <= x < d0 ensures a[x] == b[x] {
      Ext3(a[x], b[x], d1, d2, d3);
    }
  }
}
