/** The categories of a place. The client's `PlaceCategory` enum lists these fifteen; the
    server's enum of the same name carries the same constants over JSON. */
module PlaceCategories {
  datatype Category =
    | CAFE | RESTAURANT | CINEMA | LIBRARY | TRANSPORT | SHOP | MEDICAL | EDUCATION | SPORT
    | ENTERTAINMENT | GOVERNMENT | COMMUNITY_CENTER | CULTURAL_CENTER | PARK | OTHER
}
