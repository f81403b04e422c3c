/** What the itinerary model and the region rubric share of the traveller's wishes (`backend/src/jst_api/domain/enums.py`). */
module Enums {
  datatype Pace = Relaxed | Balanced | Fast
}
