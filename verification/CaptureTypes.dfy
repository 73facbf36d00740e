/** Values shared by the capture-save modules. */
module CaptureTypes {

  /** A cache size of at least one. */
  type Pos = n: nat | 1 <= n witness 1

  /** A coil is known by the text of its database identifier. */
  type Coil = string

  /** `Sick` frames come from the 3D camera, `Area` frames from the 2D one. */
  datatype Kind = Sick | Area

  /** The folders below one coil that hold numbered frame files. */
  datatype Folder = Lower2d | Upper2d | Lower3d | Upper3d | Json | AreaFolder

  datatype FrameFile = FrameFile(coil: Coil, folder: Folder, index: int)

  /** Frame numbers of the two kinds are counted separately: (next 3D, next 2D). */
  datatype Mark = Mark(next3d: int, next2d: int) {
    function Next(kind: Kind): int {
      if kind.Sick? then next3d else next2d
    }
  }

  /** A captured frame. `id` tells apart frames that agree in everything else. */
  datatype Buffer = Buffer(id: nat, kind: Kind, coil: Coil, index: int, bytes: nat)

  const THREE_D_FOLDERS: seq<Folder> := [Lower2d, Upper2d, Lower3d, Upper3d, Json]
  const AREA_FOLDERS: seq<Folder> := [AreaFolder]

  function FoldersOf(kind: Kind): seq<Folder> {
    if kind.Sick? then THREE_D_FOLDERS else AREA_FOLDERS
  }

  ghost predicate Distinct<T(!new)>(s: seq<T>) {
    forall i, j :: 0 <= i < j < |s| ==> s[i] != s[j]
  }

  ghost function Elems<T(!new)>(s: seq<T>): set<T> {
    set x | x in s
  }

  lemma {:induction false} DistinctCardinality<T(!new)>(s: seq<T>)
    requires Distinct(s)
    ensures |Elems(s)| == |s|
  {
    if s == [] {
    } else {
      DistinctCardinality(s[1..]);
      assert Elems(s) == {s[0]} + Elems(s[1..]);
    }
  }
}
