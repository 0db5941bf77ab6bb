/** The fixed registry of locations a review may name (server.py, allowed_locations). */
module Locations {

  const AllowedLocations: seq<string> := [
    "Albuquerque, New Mexico",
    "Carlsbad, California",
    "Chula Vista, California",
    "Colorado Springs, Colorado",
    "Denver, Colorado",
    "El Cajon, California",
    "El Paso, Texas",
    "Escondido, California",
    "Fresno, California",
    "La Mesa, California",
    "Las Vegas, Nevada",
    "Los Angeles, California",
    "Oceanside, California",
    "Phoenix, Arizona",
    "Sacramento, California",
    "Salt Lake City, Utah",
    "San Diego, California",
    "Tucson, Arizona"
  ]

  /** Exact, case-sensitive membership in the registry. */
  predicate IsAllowed(location: string) {
    location in AllowedLocations
  }

  /** The registry holds 18 distinct, non-empty names. */
  lemma RegistryShape()
    ensures |AllowedLocations| == 18
    ensures forall i, j :: 0 <= i < j < |AllowedLocations| ==> AllowedLocations[i] != AllowedLocations[j]
    ensures !IsAllowed("")
  {
  }
}
