/** The dashboard's weather domain values: the nine-valued condition enum,
    coordinates, locations and the normalised WeatherData aggregate. */
module WeatherTypes {

  /** `WeatherCondition`: exactly nine values. */
  datatype Condition =
    | ClearDay | ClearNight | PartlyCloudy | Cloudy | Rainy | Stormy | Snowy | Windy | Foggy

  /** All nine conditions, in declaration order. */
  const AllConditions: seq<Condition> :=
    [ClearDay, ClearNight, PartlyCloudy, Cloudy, Rainy, Stormy, Snowy, Windy, Foggy]

  lemma AllConditionsComplete(c: Condition)
    ensures c in AllConditions
  {
  }

  /** The condition's wire name, as the union type spells it. */
  function ConditionName(c: Condition): string {
    match c
    case ClearDay => "clear-day"
    case ClearNight => "clear-night"
    case PartlyCloudy => "partly-cloudy"
    case Cloudy => "cloudy"
    case Rainy => "rainy"
    case Stormy => "stormy"
    case Snowy => "snowy"
    case Windy => "windy"
    case Foggy => "foggy"
  }

  datatype Coordinates = Coordinates(lat: real, lon: real)

  datatype Location = Location(city: string, country: string, coordinates: Coordinates)

  datatype CurrentWeather = CurrentWeather(
    temperature: real,
    feelsLike: real,
    humidity: real,
    pressure: real,
    windSpeed: real,
    windDirection: real,
    visibility: real,
    uvIndex: real,
    condition: Condition,
    icon: string,
    description: string)

  datatype HourlyForecast = HourlyForecast(
    time: string,
    temperature: real,
    precipitation: real,
    condition: Condition,
    icon: string)

  datatype DailyForecast = DailyForecast(
    date: string,
    tempMin: real,
    tempMax: real,
    precipitation: real,
    humidity: real,
    windSpeed: real,
    condition: Condition,
    icon: string,
    description: string)

  datatype Forecast = Forecast(hourly: seq<HourlyForecast>, daily: seq<DailyForecast>)

  datatype WeatherData = WeatherData(
    location: Location,
    current: CurrentWeather,
    forecast: Forecast,
    lastUpdated: string)
}
