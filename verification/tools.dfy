/**
 * The tool dispatcher and the four tools (services/toolService.ts). The
 * model calls behind webSearch and summarize, and the evaluation of a
 * calculate expression, are oracles supplied by the caller.
 */
module Tools {
  import opened Wrappers
  import opened Types
  import opened Strings
  import opened Placeholders

  /** The dependency record handed to a tool: id to raw value, in insertion order. */
  type Deps = seq<(string, Value)>

  /** The JSON text of each dependency value, in the record's order. */
  function DepTexts(deps: Deps, json: Value -> string): (texts: Texts)
    ensures |texts| == |deps|
    ensures forall i :: 0 <= i < |deps| ==> texts[i] == (deps[i].0, json(deps[i].1))
  {
    if deps == [] then [] else [(deps[0].0, json(deps[0].1))] + DepTexts(deps[1..], json)
  }

  /**
   * The external services a tool relies on: the web search and
   * summarisation model calls, which may fail with a message, and the
   * evaluation of an arithmetic expression, which yields the text of its
   * value or fails.
   */
  datatype Services = Services(
    search: string -> Result<Value, string>,
    summarize: string -> Result<Value, string>,
    evaluate: string -> Option<string>)

  /** The error JavaScript raises when a method is called on a missing argument. */
  function UndefinedArgument(methodName: string): string {
    "Cannot read properties of undefined (reading '" + methodName + "')"
  }

  /**
   * A text argument after placeholder substitution. A missing argument is
   * `undefined`: the substitution loop fails on it as soon as there is a
   * dependency to visit, and otherwise it reaches the tool as "undefined".
   */
  function ResolveArgument(args: Args, key: string, deps: Deps, json: Value -> string): (r: Result<string, string>)
    ensures key in args ==> r == Ok(SubstituteAll(args[key], DepTexts(deps, json)))
    ensures key !in args && deps != [] ==> r == Err(UndefinedArgument("includes"))
    ensures key !in args && deps == [] ==> r == Ok("undefined")
  {
    if key in args then Ok(SubstituteAll(args[key], DepTexts(deps, json)))
    else if deps != [] then Err(UndefinedArgument("includes"))
    else Ok("undefined")
  }

  function WebSearch(args: Args, deps: Deps, json: Value -> string, services: Services): Result<Value, string> {
    var query :- ResolveArgument(args, "query", deps, json);
    services.search(query)
  }

  function Summarize(args: Args, deps: Deps, json: Value -> string, services: Services): Result<Value, string> {
    var text :- ResolveArgument(args, "query", deps, json);
    services.summarize(text)
  }

  /** The calculate tool: evaluates the substituted expression and quotes the original one. */
  function Calculation(args: Args, deps: Deps, json: Value -> string, services: Services): (r: Result<Value, string>)
    ensures "expression" in args ==>
      var e := SubstituteAll(args["expression"], DepTexts(deps, json));
      && (services.evaluate(e).None? ==> r == Err("Invalid mathematical expression: " + e))
      && (services.evaluate(e).Some? ==>
            r == Ok(Str("Calculation result for \"" + args["expression"] + "\" is: " + services.evaluate(e).value)))
  {
    var expression :- ResolveArgument(args, "expression", deps, json);
    var original := if "expression" in args then args["expression"] else "undefined";
    match services.evaluate(expression)
    case Some(text) => Ok(Str("Calculation result for \"" + original + "\" is: " + text))
    case None => Err("Invalid mathematical expression: " + expression)
  }

  /** One row of the mock weather table; Fahrenheit is kept in tenths of a degree. */
  datatype CityWeather = CityWeather(city: string, tempC: nat, condition: string, tempFTenths: nat)

  const WeatherTable: seq<CityWeather> := [
    CityWeather("tokyo", 25, "Sunny with some clouds", 770),
    CityWeather("london", 15, "Cloudy with a chance of rain", 590),
    CityWeather("paris", 18, "Partly cloudy", 644)
  ]

  /** Each Fahrenheit reading is the Celsius one converted exactly, C * 9/5 + 32. */
  lemma FahrenheitIsConverted(i: int)
    requires 0 <= i < |WeatherTable|
    ensures WeatherTable[i].tempFTenths * 5 == (WeatherTable[i].tempC * 9 + 160) * 10
  {
  }

  /** The printed readings: Celsius as an integer, Fahrenheit with one decimal. */
  lemma WeatherReadings()
    ensures NatText(WeatherTable[0].tempC) == "25" && TenthsText(WeatherTable[0].tempFTenths) == "77.0"
    ensures NatText(WeatherTable[1].tempC) == "15" && TenthsText(WeatherTable[1].tempFTenths) == "59.0"
    ensures NatText(WeatherTable[2].tempC) == "18" && TenthsText(WeatherTable[2].tempFTenths) == "64.4"
  {
  }

  /** The first row, in table order, whose city the location contains. */
  function FindCity(location: string, table: seq<CityWeather>): (r: Option<nat>)
    ensures r.Some? ==> r.value < |table| && Contains(location, table[r.value].city)
    ensures r.Some? ==> forall j :: 0 <= j < r.value ==> !Contains(location, table[j].city)
    ensures r.None? ==> forall j :: 0 <= j < |table| ==> !Contains(location, table[j].city)
  {
    if table == [] then None
    else if Contains(location, table[0].city) then Some(0)
    else
      match FindCity(location, table[1..])
      case Some(i) => Some(i + 1)
      case None => None
  }

  function DigitText(d: nat): string
    requires d < 10
  {
    ["0123456789"[d]]
  }

  /** The decimal text of a natural number. */
  function NatText(n: nat): (t: string)
    ensures |t| >= 1
    decreases n
  {
    if n < 10 then DigitText(n) else NatText(n / 10) + DigitText(n % 10)
  }

  /** The text of a tenths value with one decimal, as `toFixed(1)` prints it. */
  function TenthsText(t: nat): string {
    NatText(t / 10) + "." + DigitText(t % 10)
  }

  /** The sentence for a location matched to a table row, as the template prints it. */
  function WeatherSentence(location: string, row: CityWeather): string {
    "The weather in " + location + " is " + row.condition + " with a temperature of "
      + NatText(row.tempC) + "°C (" + TenthsText(row.tempFTenths) + "°F)."
  }

  /** The getWeather tool: a lookup in the mock table; it never uses dependencies. */
  function GetWeatherReport(args: Args): (r: Result<Value, string>)
    ensures "location" !in args ==> r == Err(UndefinedArgument("toLowerCase"))
    ensures "location" in args && FindCity(ToLower(args["location"]), WeatherTable).None? ==>
      r == Ok(Str("Could not find weather data for " + args["location"] + "."))
    ensures "location" in args && FindCity(ToLower(args["location"]), WeatherTable).Some? ==>
      r == Ok(Str(WeatherSentence(args["location"], WeatherTable[FindCity(ToLower(args["location"]), WeatherTable).value])))
    ensures "location" in args ==> r.Ok? && r.value.Str?
  {
    if "location" !in args then Err(UndefinedArgument("toLowerCase"))
    else
      var location := args["location"];
      match FindCity(ToLower(location), WeatherTable)
      case Some(i) =>
        Ok(Str(WeatherSentence(location, WeatherTable[i])))
      case None => Ok(Str("Could not find weather data for " + location + "."))
  }

  /** A location whose lower-cased form contains a row's city, and no earlier one, gets that row's sentence. */
  lemma WeatherRowChosen(args: Args, i: nat)
    requires "location" in args && i < |WeatherTable|
    requires Contains(ToLower(args["location"]), WeatherTable[i].city)
    requires forall j :: 0 <= j < i ==> !Contains(ToLower(args["location"]), WeatherTable[j].city)
    ensures GetWeatherReport(args) == Ok(Str(WeatherSentence(args["location"], WeatherTable[i])))
  {
    var f := FindCity(ToLower(args["location"]), WeatherTable);
    assert f.Some?;
    assert f.value == i;
  }

  /** The three sentences of the mock table, written out: the first city the lower-cased location contains wins. */
  lemma WeatherSentences(args: Args)
    requires "location" in args
    ensures var loc := args["location"];
      Contains(ToLower(loc), "tokyo") ==>
        GetWeatherReport(args) == Ok(Str("The weather in " + loc + " is " + "Sunny with some clouds"
          + " with a temperature of " + "25" + "°C (" + "77.0" + "°F)."))
    ensures var loc := args["location"];
      !Contains(ToLower(loc), "tokyo") && Contains(ToLower(loc), "london") ==>
        GetWeatherReport(args) == Ok(Str("The weather in " + loc + " is " + "Cloudy with a chance of rain"
          + " with a temperature of " + "15" + "°C (" + "59.0" + "°F)."))
    ensures var loc := args["location"];
      !Contains(ToLower(loc), "tokyo") && !Contains(ToLower(loc), "london") && Contains(ToLower(loc), "paris") ==>
        GetWeatherReport(args) == Ok(Str("The weather in " + loc + " is " + "Partly cloudy"
          + " with a temperature of " + "18" + "°C (" + "64.4" + "°F)."))
  {
    var loc := args["location"];
    WeatherReadings();
    if Contains(ToLower(loc), "tokyo") {
      WeatherRowChosen(args, 0);
    } else if Contains(ToLower(loc), "london") {
      WeatherRowChosen(args, 1);
    } else if Contains(ToLower(loc), "paris") {
      WeatherRowChosen(args, 2);
    }
  }

  /** The error `executeTool` raises for a name outside the tool union. */
  function ToolNotFound(name: string): string {
    "Tool \"" + name + "\" not found."
  }

  /** `executeTool`: dispatches on the tool name. */
  function ExecuteTool(name: string, args: Args, deps: Deps, json: Value -> string, services: Services): (r: Result<Value, string>)
    ensures name !in ToolNames ==> r == Err(ToolNotFound(name))
    ensures name == "getWeather" ==> r == GetWeatherReport(args)
  {
    match ParseTool(name)
    case Some(WebSearch) => WebSearch(args, deps, json, services)
    case Some(Calculate) => Calculation(args, deps, json, services)
    case Some(GetWeather) => GetWeatherReport(args)
    case Some(Summarize) => Summarize(args, deps, json, services)
    case None => Err(ToolNotFound(name))
  }

  /** getWeather receives no dependencies: its result is the same whatever they are. */
  lemma GetWeatherIgnoresDependencies(args: Args, deps1: Deps, deps2: Deps, json: Value -> string, services: Services)
    ensures ExecuteTool("getWeather", args, deps1, json, services) == ExecuteTool("getWeather", args, deps2, json, services)
  {
  }

  /**
   * webSearch and summarize hand their service the query after the same
   * substitution loop, and calculate evaluates the expression after it.
   */
  lemma TextToolsShareSubstitution(args: Args, deps: Deps, json: Value -> string, services: Services)
    ensures "query" in args ==>
      var q := SubstituteAll(args["query"], DepTexts(deps, json));
      && ExecuteTool("webSearch", args, deps, json, services) == services.search(q)
      && ExecuteTool("summarize", args, deps, json, services) == services.summarize(q)
    ensures "expression" in args ==>
      var e := SubstituteAll(args["expression"], DepTexts(deps, json));
      && (services.evaluate(e).None? ==>
            ExecuteTool("calculate", args, deps, json, services) == Err("Invalid mathematical expression: " + e))
      && (services.evaluate(e).Some? ==>
            ExecuteTool("calculate", args, deps, json, services)
              == Ok(Str("Calculation result for \"" + args["expression"] + "\" is: " + services.evaluate(e).value)))
  {
  }

  /** The invoker the engine uses: `executeTool` on the task's tool name. */
  function Invoker(json: Value -> string, services: Services): (invoke: (ToolName, Args, Deps) -> Result<Value, string>)
    ensures forall t, a, d :: invoke(t, a, d) == ExecuteTool(ToolText(t), a, d, json, services)
  {
    (t: ToolName, a: Args, d: Deps) => ExecuteTool(ToolText(t), a, d, json, services)
  }
}
