/**
 * The device record kept for each thermostat of the account
 * (index.js `class Thermostat`), and the per-device entry a status refresh
 * yields once the page has been scraped.
 */
module Thermostats {

  /**
   * One cached thermostat. The JavaScript object also holds a back-reference
   * to the API object; that reference never changes and is not modelled.
   * Temperatures are in the upstream unit (degrees Fahrenheit).
   */
  datatype Thermostat = Thermostat(
    id: string,
    name: string,
    targetTemp: int,
    currentTemp: int,
    powerOn: bool)

  /** What the scraper extracts for one device block of the status page. */
  datatype ParsedEntry = ParsedEntry(
    id: string,
    name: string,
    targetTemp: int,
    currentTemp: int,
    powerOn: bool)

  /** The heating/cooling modes the host platform passes to the setter. */
  datatype HeatingCoolingState = Off | Heat | Cool | Auto

  /** The record an entry describes in full. */
  function Describes(e: ParsedEntry): Thermostat {
    Thermostat(e.id, e.name, e.targetTemp, e.currentTemp, e.powerOn)
  }

  /**
   * `new Thermostat(api, id)`: only the id is set. The JavaScript object leaves
   * the other fields undefined until the same refresh callback fills them, so
   * the placeholders below are never observable.
   */
  function NewThermostat(id: string): (t: Thermostat)
    ensures t.id == id
  {
    Thermostat(id, "", 0, 0, false)
  }

  /**
   * The four assignments of a refresh to an existing record: name, target,
   * current temperature and power flag are replaced and the id is kept.
   */
  function Overwrite(t: Thermostat, e: ParsedEntry): (r: Thermostat)
    ensures r.id == t.id
    ensures t.id == e.id ==> r == Describes(e)
  {
    t.(name := e.name, targetTemp := e.targetTemp, currentTemp := e.currentTemp, powerOn := e.powerOn)
  }

  /** The power flag the setter stores for a requested mode: only cooling is "on". */
  function PowerOnFor(mode: HeatingCoolingState): bool {
    mode == Cool
  }
}
