/**
 Port hit-testing of the abstract node geometry (src/AbstractNodeGeometry.cpp).

 Coordinates are reals. The C++ code compares the Euclidean distance
 `sqrt(p . p)` with a tolerance; the model compares the squared distance
 `p . p` with the squared tolerance, which lemma `SquaredTestMatchesDistance`
 shows to be the same test. The graph model's port counts, the concrete
 geometry's port positions and the style's connection point diameter are
 parameters rather than ambient objects.
 */
module NodeGeometry {

  /** Opaque node handle of the external graph model. */
  type NodeId = nat

  datatype PortType = In | Out | None

  /** The two roles the hit test asks the graph model about. */
  datatype NodeRole = InPortCount | OutPortCount

  /** A port index, or the distinguished "no port" sentinel. */
  datatype PortIndex = Port(index: nat) | InvalidPortIndex

  datatype Point = Point(x: real, y: real) {

    function Minus(other: Point): Point {
      Point(x - other.x, y - other.y)
    }

    function Dot(other: Point): real {
      x * other.x + y * other.y
    }
  }

  /** Squared Euclidean distance between two points. */
  function SquaredDistance(p: Point, q: Point): (d: real)
    ensures d >= 0.0
  {
    var v := p.Minus(q);
    v.Dot(v)
  }

  /** The graph model role holding the number of ports of a direction. */
  function PortCountRole(portType: PortType): (role: NodeRole)
    ensures role == OutPortCount <==> portType == Out
    ensures role == InPortCount <==> portType != Out
  {
    if portType == Out then OutPortCount else InPortCount
  }

  /** A port is hit within twice the connection point diameter. */
  function Tolerance(connectionPointDiameter: real): (tolerance: real)
    ensures tolerance / 2.0 == connectionPointDiameter
    ensures tolerance > 0.0 <==> connectionPointDiameter > 0.0
  {
    2.0 * connectionPointDiameter
  }

  /**
   `sqrt(squaredDistance) < tolerance`, stated without a square root: a
   distance is never negative, so a tolerance that is not positive admits
   nothing.
   */
  predicate WithinTolerance(squaredDistance: real, tolerance: real): (within: bool)
    ensures tolerance <= 0.0 ==> !within
    ensures within && squaredDistance >= 0.0 ==> squaredDistance < tolerance * tolerance
  {
    0.0 < tolerance && squaredDistance < tolerance * tolerance
  }

  /** The squared test agrees with comparing the (non-negative) distance itself. */
  lemma SquaredTestMatchesDistance(distance: real, tolerance: real)
    requires distance >= 0.0
    ensures WithinTolerance(distance * distance, tolerance) <==> distance < tolerance
  {
    if 0.0 < tolerance && distance < tolerance {
      calc {
        distance * distance;
      <= distance * tolerance;
      <  tolerance * tolerance;
      }
    }
    if 0.0 < tolerance && tolerance <= distance {
      calc {
        tolerance * tolerance;
      <= tolerance * distance;
      <= distance * distance;
      }
    }
  }

  /** A query point exactly one tolerance away from a port is not a hit. */
  lemma BoundaryIsNoHit(port: Point, query: Point, connectionPointDiameter: real)
    requires Tolerance(connectionPointDiameter) >= 0.0
    requires SquaredDistance(port, query)
             == Tolerance(connectionPointDiameter) * Tolerance(connectionPointDiameter)
    ensures !WithinTolerance(SquaredDistance(port, query), Tolerance(connectionPointDiameter))
  {
    var tolerance := Tolerance(connectionPointDiameter);
    SquaredTestMatchesDistance(tolerance, tolerance);
  }

  /** A query point strictly closer than the tolerance to a port is a hit. */
  lemma InsideBoundaryIsHit(port: Point, query: Point, connectionPointDiameter: real, epsilon: real)
    requires 0.0 < epsilon <= Tolerance(connectionPointDiameter)
    requires SquaredDistance(port, query)
             == (Tolerance(connectionPointDiameter) - epsilon) * (Tolerance(connectionPointDiameter) - epsilon)
    ensures WithinTolerance(SquaredDistance(port, query), Tolerance(connectionPointDiameter))
  {
    SquaredTestMatchesDistance(Tolerance(connectionPointDiameter) - epsilon, Tolerance(connectionPointDiameter));
  }

  /** Port `index` of direction `portType` lies within `tolerance` of `nodePoint`. */
  predicate IsPortHit(portPosition: (NodeId, PortType, nat) -> Point, nodeId: NodeId,
                      portType: PortType, index: nat, nodePoint: Point, tolerance: real)
  {
    WithinTolerance(SquaredDistance(portPosition(nodeId, portType, index), nodePoint), tolerance)
  }

  /**
   Scans the ports of direction `portType` in index order and returns the
   first one within twice the connection point diameter of `nodePoint`
   (node-local coordinates), or `InvalidPortIndex` when there is none or the
   direction is `None`.
   */
  method CheckPortHit(nodeData: (NodeId, NodeRole) -> nat,
                      portPosition: (NodeId, PortType, nat) -> Point,
                      connectionPointDiameter: real,
                      nodeId: NodeId, portType: PortType, nodePoint: Point)
    returns (result: PortIndex)
    ensures portType == None ==> result == InvalidPortIndex
    ensures result.Port? ==>
              && result.index < nodeData(nodeId, PortCountRole(portType))
              && IsPortHit(portPosition, nodeId, portType, result.index, nodePoint,
                           Tolerance(connectionPointDiameter))
    ensures result.Port? ==>
              forall j :: 0 <= j < result.index ==>
                !IsPortHit(portPosition, nodeId, portType, j, nodePoint,
                           Tolerance(connectionPointDiameter))
    ensures result == InvalidPortIndex && portType != None ==>
              forall j :: 0 <= j < nodeData(nodeId, PortCountRole(portType)) ==>
                !IsPortHit(portPosition, nodeId, portType, j, nodePoint,
                           Tolerance(connectionPointDiameter))
  {
    result := InvalidPortIndex;
    if portType == None {
      return;
    }
    var tolerance := Tolerance(connectionPointDiameter);
    var n := nodeData(nodeId, PortCountRole(portType));
    var portIndex := 0;
    while portIndex < n
      invariant portIndex <= n
      invariant result == InvalidPortIndex
      invariant forall j :: 0 <= j < portIndex ==>
                  !IsPortHit(portPosition, nodeId, portType, j, nodePoint, tolerance)
    {
      var p := portPosition(nodeId, portType, portIndex).Minus(nodePoint);
      if WithinTolerance(p.Dot(p), tolerance) {
        result := Port(portIndex);
        break;
      }
      portIndex := portIndex + 1;
    }
  }
}
