/**
 * The location segmenter shared by the three summary views: the list of known locations
 * comes from the unfiltered records; each segment holds the filtered records at one
 * location; with a location selected there is at most the one segment for it.
 */
module Segmenter {
  import opened Options
  import opened Sequences
  import opened Grouping

  datatype Segment<R> = Segment(location: string, rows: seq<R>)

  /** One segment per key, in the order of `ks`. */
  function SegmentsFor<R(!new)>(ks: seq<string>, filtered: seq<R>, loc: R -> Option<string>): seq<Segment<R>> {
    MapSeq(ks, k => Segment(k, WithValue(filtered, loc, k)))
  }

  /**
   * `selected ? [uniqueLocations.find(l => l === selected)].filter(defined).map(seg) :
   * uniqueLocations.map(seg)`, where `uniqueLocations` is drawn from `all`.
   */
  function Segments<R(!new)>(all: seq<R>, filtered: seq<R>, selected: string, loc: R -> Option<string>): (r: seq<Segment<R>>)
    ensures selected != "" ==> |r| <= 1 && (|r| == 1 <==> Some(selected) in MapSeq(all, loc))
    ensures selected != "" ==> forall i :: 0 <= i < |r| ==> r[i].location == selected
    ensures selected == "" ==> |r| == |Unique(MapSeq(all, loc))|
    ensures selected == "" ==> forall i :: 0 <= i < |r| ==> r[i].location == Unique(MapSeq(all, loc))[i]
    ensures forall i :: 0 <= i < |r| ==>
      r[i].location != "" && r[i].rows == WithValue(filtered, loc, r[i].location)
  {
    var locations := Unique(MapSeq(all, loc));
    if selected != "" then
      if selected in locations then SegmentsFor([selected], filtered, loc) else []
    else
      SegmentsFor(locations, filtered, loc)
  }

  /** Number of records over all segments. */
  function TotalRows<R>(segments: seq<Segment<R>>): int {
    SumBy(segments, (s: Segment<R>) => |s.rows|)
  }

  lemma {:induction false} SegmentsForTotal<R(!new)>(ks: seq<string>, filtered: seq<R>, loc: R -> Option<string>)
    ensures TotalRows(SegmentsFor(ks, filtered, loc)) == SumCounts(MapSeq(filtered, loc), ks)
    decreases |ks|
  {
    if ks != [] {
      var init, k := ks[..|ks| - 1], ks[|ks| - 1];
      assert SegmentsFor(ks, filtered, loc)[..|ks| - 1] == SegmentsFor(init, filtered, loc);
      SegmentsForTotal(init, filtered, loc);
      CountOfRows(filtered, loc, k);
    }
  }

  /**
   * Without a selected location the segments partition the filtered records that have a
   * location: their sizes add up to the number of such records.
   */
  lemma SegmentsPartition<R(!new)>(all: seq<R>, filtered: seq<R>, loc: R -> Option<string>)
    requires forall i :: 0 <= i < |filtered| ==> filtered[i] in all
    ensures TotalRows(Segments(all, filtered, "", loc)) == |Located(filtered, loc)|
  {
    var ks := Unique(MapSeq(all, loc));
    var vs := MapSeq(filtered, loc);
    forall i | 0 <= i < |vs| && Present(vs[i]) ensures vs[i].value in ks {
      var j :| 0 <= j < |all| && all[j] == filtered[i];
      assert MapSeq(all, loc)[j] == vs[i];
    }
    SegmentsForTotal(ks, filtered, loc);
    SumCountsCovers(vs, ks);
    PresentCountRows(filtered, loc);
  }

  /**
   * With a location selected, when every filtered record is at that location and comes
   * from `all`, the single segment (if any) holds all of them.
   */
  lemma SegmentsSelected<R(!new)>(all: seq<R>, filtered: seq<R>, selected: string, loc: R -> Option<string>)
    requires selected != ""
    requires forall i :: 0 <= i < |filtered| ==> filtered[i] in all && loc(filtered[i]) == Some(selected)
    ensures TotalRows(Segments(all, filtered, selected, loc)) == |filtered|
    ensures filtered != [] ==> |Segments(all, filtered, selected, loc)| == 1
  {
    var segs := Segments(all, filtered, selected, loc);
    if filtered != [] {
      var j :| 0 <= j < |all| && all[j] == filtered[0];
      assert MapSeq(all, loc)[j] == Some(selected);
    }
    if |segs| == 1 {
      assert segs[..0] == [];
      assert segs[0].rows == filtered;
      assert TotalRows(segs) == TotalRows(segs[..0]) + |segs[0].rows|;
    }
  }
}
