# Vehicle rental: pricing and contract creation

A Dafny model of the domain classes of a small vehicle-rental agency
(`classes.py`): vehicles that are either cars or motorcycles, each with its
own rental-pricing rule and an availability flag; clients; and rental
contracts that freeze the total price when they are created and mark the
rented vehicle as unavailable.

- `vehicles.dfy` (module `Vehicles`): the class hierarchy `Vehicule` /
  `Voiture` / `Moto` becomes one closed datatype `Vehicle = Car(..., doors) |
  Moto(..., cc)`. Construction, the availability getter and setter, the
  daily-rate setter and the pure `Price(v, days)` are functions. Prices are
  `real`, so the factors 0.9 (car rented for more than 7 days) and 1.15
  (motorcycle above 600cc) are exact.
- `clients.dfy` (module `Clients`): the `Client` record.
- `contracts.dfy` (module `Contracts`): `ContratLocation`. In the Python code a
  contract holds a reference to the caller's vehicle object, and creating the
  contract mutates that object. The model keeps vehicles in a `Fleet` (a
  sequence of vehicles) and a contract holds a `VehicleRef` (an index into it).
  `Create` returns the contract together with the updated fleet. A later change
  to the vehicle, such as a new daily rate, is made on the fleet and is seen
  through the contract, as with the shared Python object.

The pricing conditions are strict: 7 days earns no car discount and 600cc
pays no motorcycle surcharge. Contract creation does not check that the vehicle
was available, so a vehicle can be rented twice. The total is computed once
and never recomputed.

## Model

| member | source | states |
|---|---|---|
| `Vehicles.NewCar` | classes.py:69-71 | a new car holds the given brand, model, year, rate and door count, and is available |
| `Vehicles.NewMoto` | classes.py:101-103 | a new motorcycle holds the given brand, model, year, rate and displacement, and is available |
| `Vehicles.SetAvailability` | classes.py:45-49 | the flag reads back as the value set, whatever it was before; kind, catalogue fields and rate are unchanged |
| `Vehicles.AvailabilitySetGet` | classes.py:45-49 | get after set returns the value set; the last set wins; setting the current value is the identity |
| `Vehicles.SetDailyRate` | classes.py:39-43 | the new rate is stored; kind, catalogue fields, kind-specific field and availability are unchanged |
| `Vehicles.Price` | classes.py:80-116 | for a non-negative base price, a car never pays more than rate × days and a motorcycle never less |
| `Vehicles.CarPriceUpToAWeek` | classes.py:80-85 | a car rented for at most 7 days (7 included) pays exactly rate × days |
| `Vehicles.CarPriceOverAWeek` | classes.py:80-85 | a car rented for more than 7 days pays rate × days × 0.9 |
| `Vehicles.MotoPriceSmallEngine` | classes.py:111-116 | a motorcycle of at most 600cc (600 included) pays exactly rate × days |
| `Vehicles.MotoPriceLargeEngine` | classes.py:111-116 | a motorcycle above 600cc pays rate × days × 1.15 |
| `Vehicles.PriceIsScaledBase` | classes.py:80-116 | the price is rate × days times a positive factor that does not depend on the rate |
| `Vehicles.PriceDependsOnlyOnRateAndKind` | classes.py:80-116 | two vehicles of the same kind, rate and displacement have the same price, whatever their brand, model, year, doors or availability |
| `Vehicles.PriceIgnoresAvailability` | classes.py:80-116 | changing the availability flag never changes the price |
| `Vehicles.CarPriceMonotone` | classes.py:80-85 | with a non-negative rate, a longer car rental never costs less: the discount after 7 days creates no price drop |
| `Vehicles.MotoPriceMonotone` | classes.py:111-116 | with a non-negative rate, a longer motorcycle rental never costs less |
| `Vehicles.CarEightDaysExample` | classes.py:80-85 | a car at 20000 per day rented for 8 days costs 144000 |
| `Vehicles.MotoLargeEngineExample` | classes.py:111-116 | a 650cc motorcycle at 10000 per day rented for 3 days costs 34500 |
| `Clients.NewClient` | classes.py:131-134 | a new client holds exactly the given last name, first name and phone number |
| `Contracts.Create` | classes.py:166-171 | the contract holds the given client, vehicle and days; its total is the vehicle's price at creation; the vehicle becomes unavailable and keeps its description; no other vehicle changes |
| `Contracts.ContractSeesVehicleChanges` | classes.py:176-177 | after the shared vehicle's availability or rate is changed, the contract's vehicle shows the new value, and every other field of the vehicle stays as it was |
| `Contracts.CreateGetters` | classes.py:173-183 | the getters of a new contract return the given client and days, the creation-time price, and the vehicle now unavailable |
| `Contracts.CreateIgnoresPriorAvailability` | classes.py:166-171 | creation gives the same contract and fleet whether or not the vehicle was available before; there is no availability check |
| `Contracts.DoubleBooking` | classes.py:166-171 | renting an already rented vehicle again is accepted, priced as usual, and leaves the fleet as it was |
| `Contracts.SetRateAt` | classes.py:42-43 | changing a vehicle's rate through the store changes only that vehicle's rate; its kind, brand, model, year, doors or displacement and availability are kept, and no other vehicle changes |
| `Contracts.SetAvailabilityAt` | classes.py:48-49 | changing a vehicle's availability through the store changes only that vehicle's flag |
| `Contracts.TotalFrozen` | classes.py:166-183 | after a later rate change the contract sees the new rate but keeps its creation-time total, which then differs from the current price when the rental has days |

## Left out

- The `afficher_details` methods (classes.py:88-90, 118-120, 154-155, 185-191): they only print and return nothing.
- `GestionnaireDonnees` (classes.py:201-222): it reads and writes a JSON file. As written it cannot run: `json` is never imported, and it calls `get_immatriculation` and `get_nom_complet`, which no class defines. It has no deserialisation logic, so there is no round trip to state.
- `main.py`: the interactive menu loop, driven by `input()`. Its constructor calls pass three arguments where `classes.py` takes five.
- `classes.py` has no serialisation, type tags, payment methods or registration numbers, so none is modelled.
- `set_disponibilite` (classes.py:48-49) stores whatever it is given. The model types the flag as `bool`, so there is no error path.
- Python float rounding: prices are exact reals, so 0.9 and 1.15 are exact rationals rather than IEEE doubles.
- Field types: Python does not type the fields. The model uses `string` for brand, model and the client fields, `int` for year, doors, displacement and days, and `real` for the daily rate. Days are not restricted to positive values, because the source does not check them.
- Vehicles.IsAvailable, Contracts.GetClient, Contracts.GetVehicle, Contracts.GetDays, Contracts.GetTotal: these are plain field reads with no contract of their own. What they return is stated by `Vehicles.AvailabilitySetGet`, `Contracts.CreateGetters`, `Contracts.ContractSeesVehicleChanges` and `Contracts.TotalFrozen`.
- The getters and setters for brand, model, year, doors and displacement are the datatype's fields and Dafny's update syntax. They have no functions of their own.
- Object identity of vehicles: a contract's vehicle is a `VehicleRef` into a `Fleet`. Its requirement `ValidRef` stands for the Python argument being an existing vehicle object.
- Object identity of clients: a contract holds its client by value. In `classes.py` it holds the same client object (classes.py:167, 173-174), so a later `set_nom`, `set_prenom` or `set_telephone` (classes.py:139-152) shows through `get_client()`. In the model, a later change to a client is not seen through its contracts, and the client setters are not modelled.
- The abstract base class machinery (`ABC`, `abstractmethod`) is replaced by the closed datatype.
