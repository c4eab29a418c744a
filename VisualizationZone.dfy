/** Range synchronisation between the graphs of a visualization zone: when one graph's
    time range changes, every other graph of the zone is shifted by the same amounts, with
    acquisition switched off while its range is set. */
module VisualizationZone {
  import opened SqpDateTimes

  /** A graph's time range; it has the same two bounds as the cache intervals. */
  type SqpRange = SqpDateTime

  /** The kinds of range change the variable controller tells apart. */
  datatype AcquisitionZoomType = ZoomIn | ZoomOut | PanRight | PanLeft | Unknown

  /** The new range of a sibling graph whose range is `graphChildRange` when the emitting
      graph went from `oldGraphRange` to `graphRange`, one case per zoom type. For every
      known zoom type the start moves by the change of the emitter's start and the end by
      the change of its end; an unknown type leaves the sibling as it is. */
  function SynchronizedRange(zoomType: AcquisitionZoomType, graphRange: SqpRange,
                             oldGraphRange: SqpRange, graphChildRange: SqpRange)
    : (r: SqpRange)
    ensures zoomType != Unknown ==>
      r.tStart == graphChildRange.tStart + (graphRange.tStart - oldGraphRange.tStart)
      && r.tEnd == graphChildRange.tEnd + (graphRange.tEnd - oldGraphRange.tEnd)
    ensures zoomType == Unknown ==> r == graphChildRange
  {
    match zoomType
    case ZoomIn =>
      var deltaLeft := graphRange.tStart - oldGraphRange.tStart;
      var deltaRight := oldGraphRange.tEnd - graphRange.tEnd;
      SqpDateTime(graphChildRange.tStart + deltaLeft, graphChildRange.tEnd - deltaRight)
    case ZoomOut =>
      var deltaLeft := oldGraphRange.tStart - graphRange.tStart;
      var deltaRight := graphRange.tEnd - oldGraphRange.tEnd;
      SqpDateTime(graphChildRange.tStart - deltaLeft, graphChildRange.tEnd + deltaRight)
    case PanRight =>
      var deltaLeft := graphRange.tStart - oldGraphRange.tStart;
      var deltaRight := graphRange.tEnd - oldGraphRange.tEnd;
      SqpDateTime(graphChildRange.tStart + deltaLeft, graphChildRange.tEnd + deltaRight)
    case PanLeft =>
      var deltaLeft := oldGraphRange.tStart - graphRange.tStart;
      var deltaRight := oldGraphRange.tEnd - graphRange.tEnd;
      SqpDateTime(graphChildRange.tStart - deltaLeft, graphChildRange.tEnd - deltaRight)
    case Unknown =>
      graphChildRange
  }

  /** A sibling that showed the emitter's old range ends up showing its new range. */
  lemma SynchronizedRangeFollowsEmitter(zoomType: AcquisitionZoomType, graphRange: SqpRange,
                                        oldGraphRange: SqpRange)
    requires zoomType != Unknown
    ensures SynchronizedRange(zoomType, graphRange, oldGraphRange, oldGraphRange) == graphRange
  {
  }

  /** The width of a sibling changes by exactly the change of the emitter's width. */
  lemma SynchronizedRangeWidth(zoomType: AcquisitionZoomType, graphRange: SqpRange,
                               oldGraphRange: SqpRange, graphChildRange: SqpRange)
    requires zoomType != Unknown
    ensures var r := SynchronizedRange(zoomType, graphRange, oldGraphRange, graphChildRange);
            r.tEnd - r.tStart
            == (graphChildRange.tEnd - graphChildRange.tStart)
               + ((graphRange.tEnd - graphRange.tStart)
                  - (oldGraphRange.tEnd - oldGraphRange.tStart))
  {
  }

  /** Two successive synchronisations compose into the one from the first old range to
      the last new range, whatever known zoom types they were classified as. */
  lemma SynchronizedRangeComposes(z1: AcquisitionZoomType, z2: AcquisitionZoomType,
                                  r0: SqpRange, r1: SqpRange, r2: SqpRange, child: SqpRange)
    requires z1 != Unknown && z2 != Unknown
    ensures SynchronizedRange(z2, r2, r1, SynchronizedRange(z1, r1, r0, child))
            == SynchronizedRange(ZoomIn, r2, r0, child)
  {
  }

  /** The calls a graph receives, in order. */
  datatype GraphCall = EnableAcquisitionCall(enable: bool) | SetGraphRangeCall(range: SqpRange)

  /** VisualizationGraphWidget, reduced to its time range and its acquisition flag; `calls`
      records the calls made on it. */
  class GraphWidget {
    var graphRange: SqpRange
    var doAcquisition: bool
    ghost var calls: seq<GraphCall>

    constructor (range: SqpRange)
      ensures graphRange == range && doAcquisition && calls == []
    {
      graphRange := range;
      doAcquisition := true;
      calls := [];
    }

    method EnableAcquisition(enable: bool)
      modifies this
      ensures doAcquisition == enable && graphRange == old(graphRange)
      ensures calls == old(calls) + [EnableAcquisitionCall(enable)]
    {
      doAcquisition := enable;
      calls := calls + [EnableAcquisitionCall(enable)];
    }

    method SetGraphRange(range: SqpRange)
      modifies this
      ensures graphRange == range && doAcquisition == old(doAcquisition)
      ensures calls == old(calls) + [SetGraphRangeCall(range)]
    {
      graphRange := range;
      calls := calls + [SetGraphRangeCall(range)];
    }
  }

  /** The calls a sibling receives from one synchronisation: acquisition off, the new range,
      acquisition on again. */
  function SynchronizationCalls(range: SqpRange): seq<GraphCall> {
    [EnableAcquisitionCall(false), SetGraphRangeCall(range), EnableAcquisitionCall(true)]
  }

  /** The synchronizeZoneWidget handler of `graphWidget`. `layout` holds the zone's layout
      items in order, `null` for an item that is not a graph; a widget sits in a layout at
      most once. Every graph other than the emitter gets its synchronised range, set while
      its acquisition is off, and ends with acquisition on; the emitter and the items not
      yet reached are untouched. */
  method SynchronizeZoneWidget(layout: seq<GraphWidget?>, graphWidget: GraphWidget,
                               zoomType: AcquisitionZoomType,
                               graphRange: SqpRange, oldGraphRange: SqpRange)
    requires forall i, j :: 0 <= i < j < |layout| && layout[i] != null ==> layout[i] != layout[j]
    modifies set i | 0 <= i < |layout| && layout[i] != null :: layout[i]
    ensures forall i :: 0 <= i < |layout| && layout[i] != null && layout[i] != graphWidget ==>
      && layout[i].graphRange
         == SynchronizedRange(zoomType, graphRange, oldGraphRange, old(layout[i].graphRange))
      && layout[i].doAcquisition
      && layout[i].calls == old(layout[i].calls) + SynchronizationCalls(layout[i].graphRange)
    ensures graphWidget.graphRange == old(graphWidget.graphRange)
    ensures graphWidget.doAcquisition == old(graphWidget.doAcquisition)
    ensures graphWidget.calls == old(graphWidget.calls)
  {
    for i := 0 to |layout|
      invariant forall j :: 0 <= j < i && layout[j] != null && layout[j] != graphWidget ==>
        && layout[j].graphRange
           == SynchronizedRange(zoomType, graphRange, oldGraphRange, old(layout[j].graphRange))
        && layout[j].doAcquisition
        && layout[j].calls == old(layout[j].calls) + SynchronizationCalls(layout[j].graphRange)
      invariant forall j :: i <= j < |layout| && layout[j] != null ==>
        && layout[j].graphRange == old(layout[j].graphRange)
        && layout[j].doAcquisition == old(layout[j].doAcquisition)
        && layout[j].calls == old(layout[j].calls)
      invariant graphWidget.graphRange == old(graphWidget.graphRange)
      invariant graphWidget.doAcquisition == old(graphWidget.doAcquisition)
      invariant graphWidget.calls == old(graphWidget.calls)
    {
      var graphChild := layout[i];
      if graphChild != null && graphChild != graphWidget {
        var graphChildRange := graphChild.graphRange;
        graphChildRange := SynchronizedRange(zoomType, graphRange, oldGraphRange, graphChildRange);
        graphChild.EnableAcquisition(false);
        graphChild.SetGraphRange(graphChildRange);
        graphChild.EnableAcquisition(true);
      }
    }
  }
}
