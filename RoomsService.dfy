/** Occupancy statistics over the rooms of one property. */
module RoomsService {
  import opened Entities

  /** Number of rooms with the given status. */
  function CountRooms(rooms: seq<Room>, s: RoomStatus): (n: nat)
    ensures n <= |rooms|
  {
    if rooms == [] then 0
    else CountRooms(rooms[..|rooms| - 1], s) + (if rooms[|rooms| - 1].status == s then 1 else 0)
  }

  /** Every room has exactly one of the four statuses. */
  lemma {:induction false} RoomCountsPartition(rooms: seq<Room>)
    ensures CountRooms(rooms, Occupied) + CountRooms(rooms, Vacant)
          + CountRooms(rooms, Maintenance) + CountRooms(rooms, Reserved) == |rooms|
  {
    if rooms != [] {
      RoomCountsPartition(rooms[..|rooms| - 1]);
    }
  }

  datatype OccupancyStats = OccupancyStats(
    total: nat,
    occupied: nat,
    vacant: nat,
    maintenance: nat,
    occupancyRate: real
  )

  /** The rooms of a property counted by status; reserved rooms fall in none
      of the three counts. */
  function GetOccupancyStats(rooms: seq<Room>): (st: OccupancyStats)
    ensures st.total == |rooms|
    ensures st.occupied == CountRooms(rooms, Occupied)
    ensures st.vacant == CountRooms(rooms, Vacant)
    ensures st.maintenance == CountRooms(rooms, Maintenance)
    ensures st.occupied + st.vacant + st.maintenance + CountRooms(rooms, Reserved) == st.total
    ensures st.occupancyRate == Percentage(st.occupied, st.total)
  {
    RoomCountsPartition(rooms);
    var occupied := CountRooms(rooms, Occupied);
    OccupancyStats(|rooms|, occupied, CountRooms(rooms, Vacant), CountRooms(rooms, Maintenance),
                   Percentage(occupied, |rooms|))
  }

  /** The occupancy rate is the percentage of rooms occupied: 0 when there
      are no rooms, and always between 0 and 100. */
  lemma {:induction false} OccupancyRateBounds(rooms: seq<Room>)
    ensures var st := GetOccupancyStats(rooms);
            && (st.total == 0 ==> st.occupancyRate == 0.0)
            && (st.total > 0 ==> st.occupancyRate * (st.total as real) == (st.occupied as real) * 100.0)
            && 0.0 <= st.occupancyRate <= 100.0
  {
    var st := GetOccupancyStats(rooms);
    var occ, total := st.occupied, st.total;
    assert 0 <= occ <= total;
    var rate := Percentage(occ, total);
    assert st.occupancyRate == rate;
    assert 0.0 <= rate <= 100.0;
  }
}
